/**
  The topic management page: the upsert-by-id that merges a submitted topic
  into the listed page, the edit-modal flags, and which page number each
  fetch asks for.
 */
module ManageTopics {
  import opened JsPrims

  /** A listed topic. Only `id` matters to the page; the other fields are
      carried along unchanged. */
  datatype Topic = Topic(id: string, name: string, slug: string)

  function HasId(id: string): Topic -> bool {
    (t: Topic) => t.id == id
  }

  predicate IdsDistinct(ts: seq<Topic>) {
    forall i, j :: 0 <= i < j < |ts| ==> ts[i].id != ts[j].id
  }

  /** The list after a submit of `t`: the first entry with `t`'s id is
      replaced in place, or `t` is appended when no entry has that id. */
  function Upsert(ts: seq<Topic>, t: Topic): seq<Topic> {
    var k := FindIndex(ts, HasId(t.id));
    if k == -1 then ts + [t] else ts[k := t]
  }

  /** A listed id: the first entry with it is replaced, nothing moves and the
      length is unchanged. */
  lemma UpsertExisting(ts: seq<Topic>, t: Topic, i: nat)
    requires i < |ts| && ts[i].id == t.id
    requires forall j :: 0 <= j < i ==> ts[j].id != t.id
    ensures Upsert(ts, t) == ts[i := t]
    ensures |Upsert(ts, t)| == |ts|
  {
    assert HasId(t.id)(ts[i]);
  }

  /** An unseen id: the topic goes at the end and the list grows by one. */
  lemma UpsertNew(ts: seq<Topic>, t: Topic)
    requires forall i :: 0 <= i < |ts| ==> ts[i].id != t.id
    ensures Upsert(ts, t) == ts + [t]
    ensures |Upsert(ts, t)| == |ts| + 1
  {
  }

  /** After an upsert, the first entry with the topic's id is the topic. */
  lemma UpsertThenFind(ts: seq<Topic>, t: Topic)
    ensures var r := Upsert(ts, t); var k := FindIndex(r, HasId(t.id));
      0 <= k && r[k] == t
  {
    var k := FindIndex(ts, HasId(t.id));
    var r := Upsert(ts, t);
    if k == -1 {
      forall i | 0 <= i < |ts| ensures !HasId(t.id)(r[i]) {
        assert r[i] == ts[i];
      }
      assert HasId(t.id)(r[|ts|]);
    } else {
      forall i | 0 <= i < k ensures !HasId(t.id)(r[i]) {
        assert r[i] == ts[i];
      }
      assert HasId(t.id)(r[k]);
    }
  }

  /** Submitting the same topic twice is submitting it once. */
  lemma UpsertIdempotent(ts: seq<Topic>, t: Topic)
    ensures Upsert(Upsert(ts, t), t) == Upsert(ts, t)
  {
    var k := FindIndex(ts, HasId(t.id));
    var r := Upsert(ts, t);
    UpsertThenFind(ts, t);
    var k2 := FindIndex(r, HasId(t.id));
    if k == -1 {
      forall i | 0 <= i < |ts| ensures !HasId(t.id)(r[i]) {
        assert r[i] == ts[i];
      }
    } else {
      forall i | 0 <= i < k ensures !HasId(t.id)(r[i]) {
        assert r[i] == ts[i];
      }
      assert HasId(t.id)(r[k]);
    }
    assert r[k2 := t] == r;
  }

  /** Distinct ids stay distinct. */
  lemma UpsertKeepsIdsDistinct(ts: seq<Topic>, t: Topic)
    requires IdsDistinct(ts)
    ensures IdsDistinct(Upsert(ts, t))
  {
    var k := FindIndex(ts, HasId(t.id));
    var r := Upsert(ts, t);
    if k == -1 {
      forall i, j | 0 <= i < j < |r| ensures r[i].id != r[j].id {
        if j == |ts| {
          assert !HasId(t.id)(ts[i]);
        }
      }
    } else {
      forall i, j | 0 <= i < j < |r| ensures r[i].id != r[j].id {
        assert ts[k].id == t.id;
      }
    }
  }

  /** The page's state: the listed topics and the modal flags. */
  class TopicsPage {
    var topics: seq<Topic>
    var editTopicId: string
    var showTopicModal: bool

    constructor(fetched: seq<Topic>)
      ensures topics == fetched && editTopicId == "" && !showTopicModal
    {
      topics, editTopicId, showTopicModal := fetched, "", false;
    }

    /** The modal is shown when `showTopicModal` is set or an id is being
        edited. */
    predicate ModalVisible()
      reads this
    {
      showTopicModal || editTopicId != ""
    }

    /** `handleAddTopic`: open the modal on a new topic. */
    method HandleAddTopic()
      modifies this
      ensures showTopicModal && editTopicId == "" && ModalVisible()
      ensures topics == old(topics)
    {
      showTopicModal := true;
      editTopicId := "";
    }

    /** `handleEdit`: open the modal on the topic `id`. */
    method HandleEdit(id: string)
      modifies this
      ensures editTopicId == id && showTopicModal && ModalVisible()
      ensures topics == old(topics)
    {
      editTopicId := id;
      showTopicModal := true;
    }

    /** `handleCloseModal`: hide the modal and forget the edited id. */
    method HandleCloseModal()
      modifies this
      ensures !showTopicModal && editTopicId == "" && !ModalVisible()
      ensures topics == old(topics)
    {
      showTopicModal := false;
      editTopicId := "";
    }

    /** `handleSubmit`: close the modal, then replace the listed topic with the
        same id or append the new one, testing the found index with `-~`. A
        JavaScript array holds fewer than 2^32 elements. */
    method HandleSubmit(topic: Topic)
      requires |topics| < TWO_32
      modifies this
      ensures !showTopicModal && editTopicId == "" && !ModalVisible()
      ensures topics == Upsert(old(topics), topic)
    {
      HandleCloseModal();
      var index := FindIndex(topics, HasId(topic.id));
      NegBitNotNonzero(index);
      if NegBitNot(index) != 0 {
        topics := topics[index := topic];
      } else {
        topics := topics + [topic];
      }
    }
  }

  // ---------------------------------------------------------------------------
  // Page selection
  // ---------------------------------------------------------------------------

  /** A JavaScript number as far as page numbers need one. */
  datatype JsNum = Finite(n: nat) | NaN

  predicate IsDigit(c: char) {
    '0' <= c <= '9'
  }

  predicate AllDigits(s: string) {
    forall i :: 0 <= i < |s| ==> IsDigit(s[i])
  }

  /** The value of a string of decimal digits. */
  function DigitsValue(s: string): nat
    requires AllDigits(s)
  {
    if s == [] then 0
    else DigitsValue(s[..|s| - 1]) * 10 + (s[|s| - 1] as int - '0' as int)
  }

  /** The longest run of digits at the front of `s`. */
  function LeadingDigits(s: string): (r: string)
    ensures |r| <= |s| && r == s[..|r|] && AllDigits(r)
    ensures |r| < |s| ==> !IsDigit(s[|r|])
  {
    if s != [] && IsDigit(s[0]) then [s[0]] + LeadingDigits(s[1..]) else []
  }

  /** `+s` (`Number(s)`) on a query string: the empty string is 0. */
  function NumberOf(s: string): JsNum {
    if AllDigits(s) then Finite(DigitsValue(s)) else NaN
  }

  /** `Number.parseInt(q)`: the leading digits, `NaN` when there are none or
      the query is missing. */
  function ParseIntOf(q: Option<string>): (r: JsNum)
    ensures q.Some? && AllDigits(q.value) && q.value != "" ==> r == Finite(DigitsValue(q.value))
  {
    match q
    case None => NaN
    case Some(s) =>
      var d := LeadingDigits(s);
      assert s[..|s|] == s;
      assert AllDigits(s) ==> d == s;
      if d == [] then NaN else Finite(DigitsValue(d))
  }

  /** The fetcher's default page, `parseInt(route.query.page) || 1`. */
  function DefaultPage(q: Option<string>): (r: nat)
    ensures r >= 1
    ensures q.Some? && AllDigits(q.value) && q.value != "" && DigitsValue(q.value) > 0
            ==> r == DigitsValue(q.value)
  {
    match ParseIntOf(q)
    case NaN => 1
    case Finite(n) => if n == 0 then 1 else n
  }

  /** The argument the page-query watcher passes to the fetcher: an explicit 0
      when the query is missing or empty, otherwise `+page`. */
  function WatchArgument(q: Option<string>): JsNum {
    if q.None? || q.value == "" then Finite(0) else NumberOf(q.value)
  }

  /** The page a fetch asks for: a default parameter applies only when no
      argument is given (`None`, as on mount). */
  function FetchedPage(argument: Option<JsNum>, q: Option<string>): JsNum {
    match argument
    case None => Finite(DefaultPage(q))
    case Some(x) => x
  }

  /** Removing the page query fetches page 0, not the default page 1. */
  lemma MissingPageFetchesZero(q: Option<string>)
    requires q.None? || q == Some("")
    ensures FetchedPage(Some(WatchArgument(q)), q) == Finite(0)
    ensures FetchedPage(None, q) == Finite(1)
  {
  }

  /** For a positive decimal page query, the watcher and the mount fetch the
      same page; for `0` they differ (0 against the default 1). */
  lemma DigitPageAgrees(s: string)
    requires s != "" && AllDigits(s)
    ensures FetchedPage(Some(WatchArgument(Some(s))), Some(s)) == Finite(DigitsValue(s))
    ensures DigitsValue(s) > 0 ==> FetchedPage(None, Some(s)) == Finite(DigitsValue(s))
    ensures DigitsValue(s) == 0 ==> FetchedPage(None, Some(s)) == Finite(1)
  {
  }
}
