/**
  The security settings tab: the login-session list with its kick rules, the
  API-token table (delete by id, create with a dialog that is reset
  afterwards, the token string patched onto the refetched list), and the
  password-confirmation rule.

  Server responses are method inputs; the logout, token removal and page
  reload after kicking the current session are reported as an outcome.
 */
module SecurityTab {
  import opened JsPrims
  import UiStore

  // ---------------------------------------------------------------------------
  // Login sessions
  // ---------------------------------------------------------------------------

  datatype Session = Session(id: string, ua: Option<string>, ip: Option<string>, date: string, current: Option<bool>)

  /** `item.id !== id`, where a missing `id` differs from every session id. */
  function NotId(id: Option<string>): Session -> bool {
    (s: Session) => id.None? || s.id != id.value
  }

  /** What a confirmed kick does. */
  datatype KickOutcome = LoggedOut | Kicked

  /** The sessions "kick all" would end: all but the current one. */
  function Kickable(sessions: seq<Session>): seq<Session> {
    Filter(sessions, (s: Session) => s.current != Some(true))
  }

  /** The "kick all" button is disabled when the only listed session is the
      current one; then there is nothing to kick. For a one-session list,
      that is exactly when nothing is kickable. */
  function KickAllDisabled(sessions: seq<Session>): (r: bool)
    ensures r ==> |sessions| == 1 && sessions[0].current == Some(true)
    ensures r ==> Kickable(sessions) == []
    ensures |sessions| == 1 ==> (r <==> Kickable(sessions) == [])
    ensures sessions == [] ==> !r
  {
    |sessions| == 1 && sessions[0].current == Some(true)
  }

  /** Kicking removes every session with the id and nothing else. */
  lemma KickRemovesExactlyId(sessions: seq<Session>, id: string)
    ensures forall s :: s in Filter(sessions, NotId(Some(id))) <==> s in sessions && s.id != id
  {
  }

  /** Kicking keeps the order of what remains: it works piecewise on any split
      of the list. */
  lemma KickKeepsOrder(a: seq<Session>, b: seq<Session>, id: Option<string>)
    ensures Filter(a + b, NotId(id)) == Filter(a, NotId(id)) + Filter(b, NotId(id))
  {
    FilterAppend(a, b, NotId(id));
  }

  /** Without an id, a kick removes nothing. */
  lemma KickWithoutIdKeepsAll(sessions: seq<Session>)
    ensures Filter(sessions, NotId(None)) == sessions
  {
  }

  class SessionList {
    var sessions: seq<Session>

    constructor()
      ensures sessions == []
    {
      sessions := [];
    }

    /** `fetchSession`: the server's list replaces the local one. */
    method OnFetched(list: seq<Session>)
      modifies this
      ensures sessions == list
    {
      sessions := list;
    }

    /** `handleKick`: the current session logs out (the page reloads);
        another session is removed locally by id. */
    method HandleKick(current: bool, id: Option<string>) returns (o: KickOutcome)
      modifies this
      ensures current ==> o == LoggedOut && sessions == old(sessions)
      ensures !current ==> o == Kicked && sessions == Filter(old(sessions), NotId(id))
    {
      if current {
        return LoggedOut;
      }
      sessions := Filter(sessions, NotId(id));
      return Kicked;
    }
  }

  // ---------------------------------------------------------------------------
  // API tokens
  // ---------------------------------------------------------------------------

  datatype Token = Token(id: string, name: string, token: Option<string>, created: string, expired: Option<string>)

  function TokenHasId(id: string): Token -> bool {
    (t: Token) => t.id == id
  }

  function TokenOtherId(id: string): Token -> bool {
    (t: Token) => t.id != id
  }

  function TokenHasName(name: string): Token -> bool {
    (t: Token) => t.name == name
  }

  /** The list after deleting the token `id`: its first entry is removed, and
      the list is unchanged when no entry has that id. */
  function RemoveFirstById(ts: seq<Token>, id: string): seq<Token> {
    var k := FindIndex(ts, TokenHasId(id));
    if k == -1 then ts else ts[..k] + ts[k + 1..]
  }

  /** Deleting an unlisted id does nothing. */
  lemma RemoveAbsentId(ts: seq<Token>, id: string)
    requires forall i :: 0 <= i < |ts| ==> ts[i].id != id
    ensures RemoveFirstById(ts, id) == ts
  {
    forall i | 0 <= i < |ts| ensures !TokenHasId(id)(ts[i]) {
    }
  }

  /** Deleting a listed id removes exactly one entry with that id, and the
      entries with other ids keep their order. */
  lemma {:induction false} RemoveListedId(ts: seq<Token>, id: string)
    requires exists i :: 0 <= i < |ts| && ts[i].id == id
    ensures |RemoveFirstById(ts, id)| == |ts| - 1
    ensures |Filter(RemoveFirstById(ts, id), TokenHasId(id))| == |Filter(ts, TokenHasId(id))| - 1
    ensures Filter(RemoveFirstById(ts, id), TokenOtherId(id)) == Filter(ts, TokenOtherId(id))
  {
    var k := FindIndex(ts, TokenHasId(id));
    var i :| 0 <= i < |ts| && ts[i].id == id;
    assert TokenHasId(id)(ts[i]);
    assert 0 <= k && RemoveFirstById(ts, id) == ts[..k] + ts[k + 1..];
    CutIdEntry(ts, id, k);
  }

  /** Cutting out one entry with the id removes one entry from the id's
      filter and leaves the other ids' filter alone. */
  lemma CutIdEntry(ts: seq<Token>, id: string, k: nat)
    requires k < |ts| && ts[k].id == id
    ensures |Filter(ts[..k] + ts[k + 1..], TokenHasId(id))| == |Filter(ts, TokenHasId(id))| - 1
    ensures Filter(ts[..k] + ts[k + 1..], TokenOtherId(id)) == Filter(ts, TokenOtherId(id))
  {
    assert TokenHasId(id)(ts[k]) && !TokenOtherId(id)(ts[k]);
    FilterRemoveAt(ts, k, TokenHasId(id));
    FilterRemoveAt(ts, k, TokenOtherId(id));
  }

  /** When the first entry with the id is at `k`, deletion cuts out exactly
      position `k`. */
  lemma RemoveFirstAt(ts: seq<Token>, id: string, k: nat)
    requires k < |ts| && ts[k].id == id
    requires forall j :: 0 <= j < k ==> ts[j].id != id
    ensures RemoveFirstById(ts, id) == ts[..k] + ts[k + 1..]
  {
    assert TokenHasId(id)(ts[k]);
  }

  /** The refetched list with the returned token string on the first entry
      whose name is the created token's name. */
  function PatchToken(ts: seq<Token>, name: string, issued: string): seq<Token> {
    var k := FindIndex(ts, TokenHasName(name));
    if k == -1 then ts else ts[k := ts[k].(token := Some(issued))]
  }

  /** Position `i` holds the first entry named `name`. */
  predicate FirstNamed(ts: seq<Token>, name: string, i: nat)
    requires i < |ts|
  {
    ts[i].name == name && forall j :: 0 <= j < i ==> ts[j].name != name
  }

  /** Only the first entry with the name receives the token string; every
      other entry, and every other field, is unchanged. */
  lemma PatchTokenOnlyFirst(ts: seq<Token>, name: string, issued: string)
    ensures |PatchToken(ts, name, issued)| == |ts|
    ensures forall i :: 0 <= i < |ts| ==> PatchToken(ts, name, issued)[i].(token := ts[i].token) == ts[i]
    ensures forall i :: 0 <= i < |ts| && PatchToken(ts, name, issued)[i] != ts[i] ==> FirstNamed(ts, name, i)
    ensures forall i :: 0 <= i < |ts| && FirstNamed(ts, name, i) ==> PatchToken(ts, name, issued)[i].token == Some(issued)
  {
    var k := FindIndex(ts, TokenHasName(name));
    if k != -1 {
      forall i | 0 <= i < |ts| && FirstNamed(ts, name, i)
        ensures i == k
      {
        assert TokenHasName(name)(ts[i]);
        assert TokenHasName(name)(ts[k]);
      }
    } else {
      forall i | 0 <= i < |ts| ensures ts[i].name != name {
        assert !TokenHasName(name)(ts[i]);
      }
    }
  }

  /** A value of the token dialog's model. */
  datatype DialogValue = Text(s: string) | Flag(b: bool) | Instant(ms: int)

  /** The keys of `defaultModel()`, in declaration order. */
  const DialogKeys: seq<string> := ["name", "expired", "expiredTime"]
  const DialogKeySet: set<string> := {"name", "expired", "expiredTime"}

  /** `defaultModel()` at the instant `now`. */
  function DefaultModel(now: int): (m: map<string, DialogValue>)
    ensures m.Keys == DialogKeySet
    ensures m["name"] == Text("") && m["expired"] == Flag(false) && m["expiredTime"] == Instant(now)
  {
    map["name" := Text(""), "expired" := Flag(false), "expiredTime" := Instant(now)]
  }

  /** The dialog model holds a name, a switch and an instant. */
  predicate WellTyped(m: map<string, DialogValue>) {
    && m.Keys == DialogKeySet
    && m["name"].Text? && m["expired"].Flag? && m["expiredTime"].Instant?
  }

  /** The body of the token request; the expiry instant stands for its ISO
      string. */
  datatype TokenPayload = TokenPayload(name: string, expiresAt: Option<int>)

  /** The payload built from the dialog: an expiry only when the switch is on. */
  function PayloadOf(m: map<string, DialogValue>): (p: TokenPayload)
    requires WellTyped(m)
    ensures p.name == m["name"].s
    ensures p.expiresAt.Some? <==> m["expired"].b
    ensures p.expiresAt.Some? ==> p.expiresAt.value == m["expiredTime"].ms
  {
    TokenPayload(m["name"].s, if m["expired"].b then Some(m["expiredTime"].ms) else None)
  }

  /** The API-token panel's state. */
  class ApiTokens {
    var tokens: seq<Token>
    var dataModel: map<string, DialogValue>
    var dialogShow: bool

    constructor(now: int)
      ensures tokens == [] && dataModel == DefaultModel(now) && !dialogShow && WellTyped(dataModel)
    {
      tokens := [];
      dataModel := DefaultModel(now);
      dialogShow := false;
    }

    method OnNameInput(name: string)
      requires WellTyped(dataModel)
      modifies this
      ensures dataModel == old(dataModel)["name" := Text(name)] && WellTyped(dataModel)
      ensures tokens == old(tokens) && dialogShow == old(dialogShow)
    {
      dataModel := dataModel["name" := Text(name)];
    }

    method OnExpiredSwitch(on: bool)
      requires WellTyped(dataModel)
      modifies this
      ensures dataModel == old(dataModel)["expired" := Flag(on)] && WellTyped(dataModel)
      ensures tokens == old(tokens) && dialogShow == old(dialogShow)
    {
      dataModel := dataModel["expired" := Flag(on)];
    }

    method OnExpiredTimePicked(ms: int)
      requires WellTyped(dataModel)
      modifies this
      ensures dataModel == old(dataModel)["expiredTime" := Instant(ms)] && WellTyped(dataModel)
      ensures tokens == old(tokens) && dialogShow == old(dialogShow)
    {
      dataModel := dataModel["expiredTime" := Instant(ms)];
    }

    /** `onDeleteToken`, after the server has deleted the token. */
    method OnDeleteToken(id: string)
      modifies this
      ensures tokens == RemoveFirstById(old(tokens), id)
      ensures dataModel == old(dataModel) && dialogShow == old(dialogShow)
    {
      var index := FindIndex(tokens, TokenHasId(id));
      if index != -1 {
        tokens := SpliceOne(tokens, index);
      }
    }

    /** The reset loop of `newToken`: every key of `defaultModel()` (taken at
        `now`) is copied into the model. */
    method ResetModel(now: int)
      requires WellTyped(dataModel)
      modifies this
      ensures dataModel == DefaultModel(now) && WellTyped(dataModel)
      ensures tokens == old(tokens) && dialogShow == old(dialogShow)
    {
      var n := DefaultModel(now);
      var i := 0;
      while i < |DialogKeys|
        invariant 0 <= i <= |DialogKeys|
        invariant tokens == old(tokens) && dialogShow == old(dialogShow)
        invariant dataModel.Keys == n.Keys
        invariant forall j :: 0 <= j < i ==> dataModel[DialogKeys[j]] == n[DialogKeys[j]]
      {
        var key := DialogKeys[i];
        dataModel := dataModel[key := n[key]];
        i := i + 1;
      }
      assert forall k :: k in n ==> k == DialogKeys[0] || k == DialogKeys[1] || k == DialogKeys[2];
    }

    /** `newToken`: build the payload from the dialog and create the token;
        `copied` says whether the awaited clipboard write of the returned
        token string succeeded. When it rejects, the handler stops there and
        no page state changes. Otherwise: close the dialog, reset every field
        of the model to `defaultModel()` (taken at `now`), replace the list
        with the refetched one and put the returned token string on the first
        entry with the same name. */
    method NewToken(now: int, issued: string, copied: bool, fetched: seq<Token>) returns (payload: TokenPayload)
      requires WellTyped(dataModel)
      modifies this
      ensures payload == PayloadOf(old(dataModel))
      ensures !copied ==>
        dialogShow == old(dialogShow) && dataModel == old(dataModel) && tokens == old(tokens)
      ensures copied ==> !dialogShow
      ensures copied ==> dataModel == DefaultModel(now) && WellTyped(dataModel)
      ensures copied ==> tokens == PatchToken(fetched, payload.name, issued)
    {
      payload := TokenPayload(
        dataModel["name"].s,
        if dataModel["expired"].b then Some(dataModel["expiredTime"].ms) else None);
      if !copied {
        return;
      }
      dialogShow := false;
      ResetModel(now);
      tokens := fetched;
      var index := FindIndex(tokens, TokenHasName(payload.name));
      if index != -1 {
        tokens := tokens[index := tokens[index].(token := Some(issued))];
      }
    }
  }

  /** `'*'.repeat(n)` */
  function Stars(n: nat): (r: string)
    ensures |r| == n && forall i :: 0 <= i < n ==> r[i] == '*'
  {
    if n == 0 then "" else Stars(n - 1) + "*"
  }

  /** The token column: the token string, or 40 asterisks when it is missing. */
  function TokenCell(token: Option<string>): (r: string)
    ensures token.Some? ==> r == token.value
    ensures token.None? ==> |r| == 40 && forall i :: 0 <= i < |r| ==> r[i] == '*'
  {
    token.GetOr(Stars(40))
  }

  /** The token table's `scrollX`: `max(800, contentWidth -
      contentInsetWidth)`; unknown while the viewport is. */
  function TokenTableScrollX(contentWidth: Option<int>, contentInsetWidth: Option<int>): (r: Option<int>)
    ensures r.Some? <==> contentWidth.Some? && contentInsetWidth.Some?
    ensures r.Some? ==> r.value >= 800 && r.value >= contentWidth.value - contentInsetWidth.value
    ensures r.Some? ==> r.value == 800 || r.value == contentWidth.value - contentInsetWidth.value
  {
    if contentWidth.Some? && contentInsetWidth.Some? then
      var d := contentWidth.value - contentInsetWidth.value;
      Some(if d > 800 then d else 800)
    else None
  }

  /** The difference of the two widths is six font sizes, so the table
      scrolls at 800 pixels whatever the viewport, unless the root font size
      exceeds 133 pixels. */
  lemma ScrollXIgnoresViewport(v: UiStore.ViewportRecord, sidebarWidth: int, collapse: bool, collapseWidth: int, fontSize: int)
    requires fontSize <= 133
    ensures TokenTableScrollX(
              UiStore.ContentWidth(Some(v), sidebarWidth, collapse, collapseWidth),
              UiStore.ContentInsetWidth(Some(v), sidebarWidth, collapse, collapseWidth, fontSize))
            == Some(800)
  {
    UiStore.ContentWidthRelations(v, sidebarWidth, collapseWidth, fontSize, collapse);
  }

  // ---------------------------------------------------------------------------
  // Password reset
  // ---------------------------------------------------------------------------

  /** `validatePasswordSame`: the confirmation must equal the new password
      exactly. Strict equality is the whole rule; `ResetRequest` builds the
      reset request on it. */
  function ValidatePasswordSame(reentered: string, password: string): (r: bool)
    ensures r <==> reentered == password
  {
    reentered == password
  }

  /** The password the reset form sends, if its rules pass: both fields are
      required (non-empty) and the confirmation must match. */
  function ResetRequest(password: string, reentered: string): (r: Option<string>)
    ensures r.Some? <==> password != "" && reentered == password
    ensures r.Some? ==> r.value == reentered
  {
    if password != "" && reentered != "" && ValidatePasswordSame(reentered, password) then Some(password) else None
  }
}
