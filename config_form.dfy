/**
  The schema-driven configuration form (`ConfigForm`, `SchemaSection`,
  `ScheamFormItem`): which definitions become panels, how a `$ref` is
  resolved, which control a field gets, and how a field's value is written
  back into the form-data tree through lodash `get`/`set` dot paths.
 */
module ConfigForm {
  import opened JsPrims

  // ===========================================================================
  // The form-data tree and lodash `get`/`set`
  // ===========================================================================

  /** A leaf value of the form-data tree. `Undefined` is a stored `undefined`
      (lodash `set` creates the key even for that value). */
  datatype Scalar = Undefined | Null | Str(s: string) | Num(n: int) | Bool(b: bool) | Tags(items: seq<string>)

  datatype Tree = Leaf(value: Scalar) | Obj(fields: map<string, Tree>)

  /** JavaScript truthiness of a tree value (objects and arrays are truthy). */
  predicate Truthy(t: Tree) {
    match t
    case Obj(_) => true
    case Leaf(v) =>
      match v
      case Undefined => false
      case Null => false
      case Str(s) => s != ""
      case Num(n) => n != 0
      case Bool(b) => b
      case Tags(_) => true
  }

  type Path = seq<string>

  /** The position of the first '.' in `s`, or -1. */
  function FirstDot(s: string): (i: int)
    ensures -1 <= i < |s|
  {
    if |s| == 0 then -1
    else if s[0] == '.' then 0
    else
      var k := FirstDot(s[1..]);
      if k == -1 then -1 else k + 1
  }

  /** The first dot is the '.' before which there is none. */
  lemma {:induction false} FirstDotAt(s: string, i: nat)
    requires i < |s| && s[i] == '.'
    requires forall j :: 0 <= j < i ==> s[j] != '.'
    ensures FirstDot(s) == i
  {
    if i > 0 {
      FirstDotAt(s[1..], i - 1);
    }
  }

  /** A string without '.' has no first dot. */
  lemma {:induction false} FirstDotNone(s: string)
    requires forall j :: 0 <= j < |s| ==> s[j] != '.'
    ensures FirstDot(s) == -1
  {
    if |s| > 0 {
      FirstDotNone(s[1..]);
    }
  }

  /** What `FirstDot` finds: a '.' with none before it, or no '.' at all. */
  lemma {:induction false} FirstDotSpec(s: string)
    ensures FirstDot(s) >= 0 ==> s[FirstDot(s)] == '.' && forall j :: 0 <= j < FirstDot(s) ==> s[j] != '.'
    ensures FirstDot(s) == -1 ==> forall j :: 0 <= j < |s| ==> s[j] != '.'
  {
    if |s| > 0 && s[0] != '.' {
      FirstDotSpec(s[1..]);
    }
  }

  /** A lodash path string split into keys at every '.'. */
  function SplitPath(s: string): (r: Path)
    ensures |r| >= 1
    decreases |s|
  {
    var i := FirstDot(s);
    if i == -1 then [s] else [s[..i]] + SplitPath(s[i + 1..])
  }

  /** A key without a dot is a one-key path. */
  lemma SplitPathNoDot(s: string)
    requires '.' !in s
    ensures SplitPath(s) == [s]
  {
    FirstDotNone(s);
  }

  /** The first dot of `a + "." + b` is the first dot of `a`, or the joining
      dot when `a` has none. */
  lemma FirstDotOfJoin(a: string, b: string)
    ensures var i := FirstDot(a);
      FirstDot(a + "." + b) == if i == -1 then |a| else i
  {
    var s := a + "." + b;
    FirstDotSpec(a);
    var i := FirstDot(a);
    if i == -1 {
      FirstDotAt(s, |a|);
    } else {
      FirstDotAt(s, i);
    }
  }

  /** Joining two path strings with '.' concatenates their key lists. */
  lemma {:induction false} SplitPathJoin(a: string, b: string)
    ensures SplitPath(a + "." + b) == SplitPath(a) + SplitPath(b)
    decreases |a|
  {
    var s := a + "." + b;
    var i := FirstDot(a);
    FirstDotOfJoin(a, b);
    if i == -1 {
      assert s[..|a|] == a && s[|a| + 1..] == b;
    } else {
      assert s[..i] == a[..i];
      assert s[i + 1..] == a[i + 1..] + "." + b;
      SplitPathJoin(a[i + 1..], b);
    }
  }

  /** The path string `<base>.<property>` a field or nested section addresses. */
  function FieldPath(base: string, property: string): string {
    base + "." + property
  }

  /** The keys of a dotless property path are the base keys plus the property. */
  lemma FieldPathKeys(base: string, property: string)
    requires '.' !in property
    ensures SplitPath(FieldPath(base, property)) == SplitPath(base) + [property]
  {
    SplitPathJoin(base, property);
    SplitPathNoDot(property);
  }

  /** Keys on which lodash `set` stops without assigning. */
  predicate PlainKey(k: string) {
    k != "__proto__" && k != "constructor" && k != "prototype"
  }

  predicate PlainPath(p: Path) {
    forall i :: 0 <= i < |p| ==> PlainKey(p[i])
  }

  /** lodash `get(t, p)`; `None` when some key on the way is missing. */
  function Get(t: Tree, p: Path): Option<Tree> {
    if |p| == 0 then Some(t)
    else
      match t
      case Leaf(_) => None
      case Obj(m) => if p[0] in m then Get(m[p[0]], p[1..]) else None
  }

  /** What the source reads: a missing key reads as `undefined`. */
  function ValueAt(t: Tree, p: Path): Tree {
    match Get(t, p)
    case None => Leaf(Undefined)
    case Some(x) => x
  }

  /** lodash `set(t, p, v)`: a non-object root is returned unchanged; an
      intermediate key that is missing or not an object is replaced by a
      fresh `{}`; a `__proto__`/`constructor`/`prototype` key stops the walk. */
  function Set(t: Tree, p: Path, v: Tree): Tree
    decreases |p|
  {
    if |p| == 0 || !PlainKey(p[0]) then t
    else
      match t
      case Leaf(_) => t
      case Obj(m) =>
        if |p| == 1 then Obj(m[p[0] := v])
        else
          var child := if p[0] in m && m[p[0]].Obj? then m[p[0]] else Obj(map[]);
          Obj(m[p[0] := Set(child, p[1..], v)])
  }

  /** Reading along `a + b` is reading `b` inside what `a` reaches. */
  lemma {:induction false} GetAppend(t: Tree, a: Path, b: Path)
    ensures Get(t, a + b) == if Get(t, a).None? then None else Get(Get(t, a).value, b)
  {
    if |a| > 0 {
      assert (a + b)[1..] == a[1..] + b;
      match t
      case Leaf(_) =>
      case Obj(m) =>
        if a[0] in m { GetAppend(m[a[0]], a[1..], b); }
    } else {
      assert a + b == b;
    }
  }

  /** After `set(t, p, v)` on an object, `get(t, p)` is `v`. */
  lemma {:induction false} SetThenGet(t: Tree, p: Path, v: Tree)
    requires t.Obj? && |p| >= 1 && PlainPath(p)
    ensures Get(Set(t, p, v), p) == Some(v)
    decreases |p|
  {
    if |p| > 1 {
      var m := t.fields;
      var child := if p[0] in m && m[p[0]].Obj? then m[p[0]] else Obj(map[]);
      SetThenGet(child, p[1..], v);
    }
  }

  /** `set(t, p, v)` leaves every path that is neither a prefix nor an
      extension of `p` reading as before. */
  lemma {:induction false} SetFrame(t: Tree, p: Path, v: Tree, q: Path)
    requires t.Obj? && PlainPath(p)
    requires !(q <= p) && !(p <= q)
    ensures Get(Set(t, p, v), q) == Get(t, q)
    decreases |p|
  {
    var m := t.fields;
    assert |p| >= 1 && |q| >= 1;
    if q[0] != p[0] || |p| == 1 {
    } else {
      var child := if p[0] in m && m[p[0]].Obj? then m[p[0]] else Obj(map[]);
      SetFrame(child, p[1..], v, q[1..]);
    }
  }

  /** Setting one key below an object that is already there changes that key
      and nothing else of the object. */
  lemma {:induction false} SetChildOfObject(t: Tree, b: Path, m: map<string, Tree>, k: string, v: Tree)
    requires t.Obj? && PlainPath(b) && PlainKey(k)
    requires Get(t, b) == Some(Obj(m))
    ensures Get(Set(t, b + [k], v), b) == Some(Obj(m[k := v]))
  {
    if |b| > 0 {
      assert (b + [k])[1..] == b[1..] + [k];
      var child := t.fields[b[0]];
      SetChildOfObject(child, b[1..], m, k, v);
    }
  }

  // ===========================================================================
  // The write-back rule of a field (`onUpdateValue` in `SchemaSection`)
  // ===========================================================================

  /** `{...x}` of the parent value, which is only evaluated when the parent
      is falsy; spreading `undefined`, `null`, `false`, `0` or `''` gives `{}`. */
  function Spread(x: Tree): map<string, Tree>
    requires x.Obj? || !Truthy(x)
  {
    match x
    case Obj(m) => m
    case Leaf(_) => map[]
  }

  /** The form data after a field under section key `base` (already passed
      through `getKey`) emits `v` for `property`. */
  function WriteBack(root: Tree, base: string, property: string, v: Tree): Tree {
    WriteBackPaths(root, SplitPath(base), SplitPath(FieldPath(base, property)), property, v)
  }

  /** The same rule on split paths: `parentPath` is the section's keys,
      `fieldPath` the field's, `property` the key the spread adds. */
  function WriteBackPaths(root: Tree, parentPath: Path, fieldPath: Path, property: string, v: Tree): Tree {
    var parent := ValueAt(root, parentPath);
    if Truthy(parent) then Set(root, fieldPath, v)
    else Set(root, parentPath, Obj(Spread(parent)[property := v]))
  }

  /** After a field emits `v`, reading `<base>.<property>` yields `v`. */
  lemma WriteBackReadsBack(root: Tree, base: string, property: string, v: Tree)
    requires root.Obj? && PlainPath(SplitPath(base)) && PlainKey(property) && '.' !in property
    ensures Get(WriteBack(root, base, property, v), SplitPath(FieldPath(base, property))) == Some(v)
  {
    var b := SplitPath(base);
    FieldPathKeys(base, property);
    assert PlainPath(b + [property]);
    if Truthy(ValueAt(root, b)) {
      SetThenGet(root, b + [property], v);
    } else {
      var parent := Obj(Spread(ValueAt(root, b))[property := v]);
      SetThenGet(root, b, parent);
      GetAppend(WriteBack(root, base, property, v), b, [property]);
    }
  }

  /** A truthy object parent gets only the one key; its siblings stay. */
  lemma WriteBackKeepsSiblings(root: Tree, base: string, property: string, v: Tree, m: map<string, Tree>)
    requires root.Obj? && PlainPath(SplitPath(base)) && PlainKey(property) && '.' !in property
    requires Get(root, SplitPath(base)) == Some(Obj(m))
    ensures Get(WriteBack(root, base, property, v), SplitPath(base)) == Some(Obj(m[property := v]))
  {
    FieldPathKeys(base, property);
    SetChildOfObject(root, SplitPath(base), m, property, v);
  }

  /** A falsy (or missing) parent is replaced by exactly `{property: v}`. */
  lemma WriteBackFalsyParent(root: Tree, base: string, property: string, v: Tree)
    requires root.Obj? && PlainPath(SplitPath(base))
    requires !Truthy(ValueAt(root, SplitPath(base)))
    ensures Get(WriteBack(root, base, property, v), SplitPath(base)) == Some(Obj(map[property := v]))
  {
    var parent := ValueAt(root, SplitPath(base));
    assert Spread(parent) == map[];
    SetThenGet(root, SplitPath(base), Obj(map[property := v]));
  }

  /** Nothing outside the parent's subtree changes. */
  lemma WriteBackFrame(root: Tree, base: string, property: string, v: Tree, q: Path)
    requires root.Obj? && PlainPath(SplitPath(base)) && PlainKey(property) && '.' !in property
    requires !(q <= SplitPath(base)) && !(SplitPath(base) <= q)
    ensures Get(WriteBack(root, base, property, v), q) == Get(root, q)
  {
    var b := SplitPath(base);
    FieldPathKeys(base, property);
    if Truthy(ValueAt(root, b)) {
      assert PlainPath(b + [property]);
      SetFrame(root, b + [property], v, q);
    } else {
      SetFrame(root, b, Obj(Spread(ValueAt(root, b))[property := v]), q);
    }
  }

  /** `formData`: the one mutable tree of a form session, and the `getKey`
      the form was given (identity unless the caller remaps keys). */
  class FormSession {
    var formData: Tree
    const getKey: string -> string

    constructor(initialValue: Tree, getKey: string -> string)
      ensures formData == initialValue && this.getKey == getKey
    {
      formData := initialValue;
      this.getKey := getKey;
    }

    /** The `onUpdateValue` closure of the field `property` in the section
        whose data key is `dataKey`. */
    method OnUpdateValue(dataKey: string, property: string, v: Tree)
      modifies this
      ensures formData == WriteBack(old(formData), getKey(dataKey), property, v)
      ensures old(formData).Obj? && PlainPath(SplitPath(getKey(dataKey))) && PlainKey(property) && '.' !in property
              ==> Get(formData, SplitPath(FieldPath(getKey(dataKey), property))) == Some(v)
    {
      var base := getKey(dataKey);
      var parentPath := SplitPath(base);
      var parent := ValueAt(formData, parentPath);
      if old(formData).Obj? && PlainPath(parentPath) && PlainKey(property) && '.' !in property {
        WriteBackReadsBack(formData, base, property, v);
      }
      if Truthy(parent) {
        formData := Set(formData, SplitPath(FieldPath(base, property)), v);
      } else {
        formData := Set(formData, parentPath, Obj(Spread(parent)[property := v]));
      }
    }
  }

  /** A mounted field (`ScheamFormItem`): its `innerValue` is seeded from the
      tree, emitted once at creation and again on every control update. */
  class FieldItem {
    const session: FormSession
    const dataKey: string
    const property: string
    var innerValue: Tree

    constructor(session: FormSession, dataKey: string, property: string)
      modifies session
      ensures this.session == session && this.dataKey == dataKey && this.property == property
      ensures innerValue == ValueAt(old(session.formData), SplitPath(FieldPath(session.getKey(dataKey), property)))
      ensures session.formData == WriteBack(old(session.formData), session.getKey(dataKey), property, innerValue)
    {
      this.session := session;
      this.dataKey := dataKey;
      this.property := property;
      innerValue := ValueAt(session.formData, SplitPath(FieldPath(session.getKey(dataKey), property)));
      new;
      session.OnUpdateValue(dataKey, property, innerValue);
    }

    /** The control's `onUpdateValue`: overwrite `innerValue`, which re-emits. */
    method UpdateValue(v: Tree)
      modifies this, session
      ensures innerValue == v
      ensures session.formData == WriteBack(old(session.formData), session.getKey(dataKey), property, v)
    {
      innerValue := v;
      session.OnUpdateValue(dataKey, property, innerValue);
    }
  }

  /** The tree after mounting two fields `a` and `b` of a top-level section
      `sec` on an empty tree (each emits its `undefined` once) and then
      editing `a` to `v`: the field that was never edited is present as a
      key holding `undefined`. */
  lemma MountTwoFieldsThenEdit(sec: string, a: string, b: string, v: Tree)
    requires '.' !in sec && '.' !in a && '.' !in b && a != b
    requires PlainKey(sec) && PlainKey(a) && PlainKey(b)
    ensures var u := Leaf(Undefined);
      var t0 := Obj(map[]);
      var t1 := WriteBack(t0, sec, a, ValueAt(t0, SplitPath(FieldPath(sec, a))));
      var t2 := WriteBack(t1, sec, b, ValueAt(t1, SplitPath(FieldPath(sec, b))));
      && t1 == Obj(map[sec := Obj(map[a := u])])
      && t2 == Obj(map[sec := Obj(map[a := u, b := u])])
      && WriteBack(t2, sec, a, v) == Obj(map[sec := Obj(map[a := v, b := u])])
  {
    var u := Leaf(Undefined);
    SplitPathNoDot(sec);
    FieldPathKeys(sec, a);
    FieldPathKeys(sec, b);
    MountField(sec, a, map[]);
    assert map[][a := u] == map[a := u];
    MountField(sec, b, map[a := u]);
    EditField(sec, a, v, map[a := u, b := u]);
    assert map[a := u, b := u][a := v] == map[a := v, b := u];
  }

  /** Mounting field `k` of section `sec` whose value is missing: with no
      section yet the section becomes `{k: undefined}`, otherwise the key is
      added to it. */
  lemma MountField(sec: string, k: string, fields: map<string, Tree>)
    requires k !in fields && PlainKey(sec) && PlainKey(k)
    ensures var t := if fields == map[] then Obj(map[]) else Obj(map[sec := Obj(fields)]);
      WriteBackPaths(t, [sec], [sec, k], k, ValueAt(t, [sec, k]))
      == Obj(map[sec := Obj(fields[k := Leaf(Undefined)])])
  {
    var t := if fields == map[] then Obj(map[]) else Obj(map[sec := Obj(fields)]);
    var p: Path := [sec, k];
    assert p[1..] == [k];
    assert [sec][1..] == [];
    if fields == map[] {
      assert ValueAt(t, p) == Leaf(Undefined);
      assert ValueAt(t, [sec]) == Leaf(Undefined);
    } else {
      assert Get(Obj(fields), [k]) == None;
      assert ValueAt(t, p) == Leaf(Undefined);
      assert Get(t, [sec]) == Get(Obj(fields), []);
      assert Set(Obj(fields), [k], Leaf(Undefined)) == Obj(fields[k := Leaf(Undefined)]);
    }
  }

  /** Editing field `k` of section `sec` when the section is an object. */
  lemma EditField(sec: string, k: string, v: Tree, fields: map<string, Tree>)
    requires PlainKey(sec) && PlainKey(k)
    ensures WriteBackPaths(Obj(map[sec := Obj(fields)]), [sec], [sec, k], k, v)
            == Obj(map[sec := Obj(fields[k := v])])
  {
    var t := Obj(map[sec := Obj(fields)]);
    var p: Path := [sec, k];
    assert p[1..] == [k];
    assert [sec][1..] == [];
    assert Get(t, [sec]) == Get(Obj(fields), []);
    assert Set(Obj(fields), [k], v) == Obj(fields[k := v]);
  }

  // ===========================================================================
  // The schema document
  // ===========================================================================

  datatype SelectOption = SelectOption(labelText: string, value: string)

  /** `ui:options`: `type` (`hidden` on a definition; `select`, `textarea` or
      an input type on a field), `values` for a select, `halfGrid`. */
  datatype UiOptions = UiOptions(uiType: Option<string>, values: Option<seq<SelectOption>>, halfGrid: bool)

  /** The `{}` a field gets when it has no `ui:options`. */
  const NoOptions := UiOptions(None, None, false)

  /** A property of a sub-schema: a reference when `$ref` is a non-empty
      string, otherwise a field. */
  datatype PropertySchema = PropertySchema(
    ref: Option<string>,
    title: string,
    fieldType: string,
    options: Option<UiOptions>,
    description: Option<string>)

  predicate HasRef(p: PropertySchema) {
    p.ref.Some? && p.ref.value != ""
  }

  /** `properties` and `definitions` are kept in their key order. */
  datatype SubSchema = SubSchema(title: Option<string>, properties: seq<(string, PropertySchema)>, options: Option<UiOptions>)

  datatype SchemaDocument = SchemaDocument(definitions: seq<(string, SubSchema)>, ps: seq<string>)

  predicate DistinctKeys<T>(entries: seq<(string, T)>) {
    forall i, j :: 0 <= i < j < |entries| ==> entries[i].0 != entries[j].0
  }

  // ===========================================================================
  // Panels (`ConfigForm`)
  // ===========================================================================

  /** A definition gets a panel when its title is truthy and its
      `ui:options.type` is not "hidden". */
  predicate IsPanel(s: SubSchema) {
    s.title.Some? && s.title.value != ""
    && !(s.options.Some? && s.options.value.uiType == Some("hidden"))
  }

  datatype Panel = Panel(name: string, title: string, dataKey: string, schema: SubSchema)

  function PanelOf(d: (string, SubSchema), getKey: string -> string): Panel
    requires IsPanel(d.1)
  {
    Panel(d.0, d.1.title.value, getKey(d.0), d.1)
  }

  /** The panels, in definition order. */
  function Panels(defs: seq<(string, SubSchema)>, getKey: string -> string): (r: seq<Panel>)
    ensures |r| <= |defs|
    ensures forall j :: 0 <= j < |r| ==>
      (r[j].name, r[j].schema) in defs && IsPanel(r[j].schema)
      && r[j].title == r[j].schema.title.value && r[j].dataKey == getKey(r[j].name)
    ensures forall i :: 0 <= i < |defs| && IsPanel(defs[i].1) ==> PanelOf(defs[i], getKey) in r
  {
    if |defs| == 0 then []
    else
      var rest := Panels(defs[1..], getKey);
      assert forall i :: 1 <= i < |defs| ==> defs[i] == defs[1..][i - 1];
      if IsPanel(defs[0].1) then [PanelOf(defs[0], getKey)] + rest else rest
  }

  /** Panels keep the definitions' order. */
  lemma {:induction false} PanelsAppend(a: seq<(string, SubSchema)>, b: seq<(string, SubSchema)>, getKey: string -> string)
    ensures Panels(a + b, getKey) == Panels(a, getKey) + Panels(b, getKey)
  {
    if |a| > 0 {
      assert (a + b)[1..] == a[1..] + b;
      PanelsAppend(a[1..], b, getKey);
    } else {
      assert a + b == b;
    }
  }

  /** `defaultExpandedNames`: the first definition key (`undefined` when there
      is none), whether or not that definition gets a panel. The one-line
      body is the whole promise; `ExpandedNameMayMissPanels` is the property
      built on it. */
  function DefaultExpandedNames(defs: seq<(string, SubSchema)>): (r: seq<Option<string>>)
    ensures |r| == 1
    ensures |defs| > 0 <==> r[0].Some?
    ensures |defs| > 0 ==> r[0].value == defs[0].0
  {
    [if |defs| == 0 then None else Some(defs[0].0)]
  }

  /** When the first definition is hidden or untitled, the default expanded
      name belongs to no panel. */
  lemma ExpandedNameMayMissPanels(defs: seq<(string, SubSchema)>, getKey: string -> string)
    requires |defs| > 0 && DistinctKeys(defs) && !IsPanel(defs[0].1)
    ensures forall j :: 0 <= j < |Panels(defs, getKey)| ==> Some(Panels(defs, getKey)[j].name) != DefaultExpandedNames(defs)[0]
  {
    var r := Panels(defs, getKey);
    forall j | 0 <= j < |r| ensures r[j].name != defs[0].0 {
      var i :| 0 <= i < |defs| && defs[i] == (r[j].name, r[j].schema);
      assert i != 0;
    }
  }

  // ===========================================================================
  // Sections (`SchemaSection`)
  // ===========================================================================

  /** `$ref.split('/').at(-1)`: the text after the last '/'. */
  function RefName(ref: string): (n: string)
    ensures |n| <= |ref| && n == ref[|ref| - |n|..]
    ensures '/' !in n
    ensures |n| < |ref| ==> ref[|ref| - |n| - 1] == '/'
  {
    if |ref| == 0 then ""
    else if ref[|ref| - 1] == '/' then ""
    else RefName(ref[..|ref| - 1]) + [ref[|ref| - 1]]
  }

  /** The conventional `#/definitions/<name>` form names `<name>`. */
  lemma {:induction false} RefNameOfPointer(prefix: string, name: string)
    requires '/' !in name
    ensures RefName(prefix + "/" + name) == name
  {
    var s := prefix + "/" + name;
    var n := RefName(s);
    assert s[|s| - |name|..] == name;
    assert s[|s| - |name| - 1] == '/';
    assert n == s[|s| - |n|..];
  }

  /** The definition lookup map built from the definitions' entries. */
  function Lookup(defs: seq<(string, SubSchema)>, name: string): (r: Option<SubSchema>)
    ensures r.Some? <==> exists i :: 0 <= i < |defs| && defs[i].0 == name
    ensures r.Some? ==> (name, r.value) in defs
  {
    var k := FindIndex(defs, (d: (string, SubSchema)) => d.0 == name);
    if k == -1 then None else Some(defs[k].1)
  }

  /** What rendering one property yields: a nested section (children empty
      when the reference is unresolved, or when the nesting bound `fuel` is
      spent) or a field bound to its path. */
  datatype Node =
    | SectionNode(property: string, dataKey: string, schema: Option<SubSchema>, children: seq<Node>)
    | FieldNode(property: string, dataKey: string, path: string, title: string,
                fieldType: string, options: UiOptions, description: Option<string>)

  /** The environment a section reads: the definitions and `getKey`. */
  datatype Env = Env(definitions: seq<(string, SubSchema)>, getKey: string -> string)

  /** The contract of one property's node: `<getKey(dataKey)>.<property>` as
      its key; for a `$ref`, the referenced definition (or nothing) rendered
      as a nested section under that key, down to the nesting bound `fuel`;
      otherwise the field's own title, type, options (defaulting to `{}`) and
      description. */
  predicate NodeFor(env: Env, entry: (string, PropertySchema), dataKey: string, n: Node, fuel: nat)
    decreases fuel, 0, 0
  {
    var (name, p) := entry;
    var key := FieldPath(env.getKey(dataKey), name);
    if HasRef(p) then
      n.SectionNode? && n.property == name && n.dataKey == key
      && n.schema == Lookup(env.definitions, RefName(p.ref.value))
      && n.children == (if fuel == 0 then [] else Section(env, n.schema, key, fuel - 1))
    else
      n.FieldNode? && n.property == name && n.dataKey == dataKey && n.path == key
      && n.title == p.title && n.fieldType == p.fieldType
      && n.options == p.options.GetOr(NoOptions) && n.description == p.description
  }

  /** A section: nothing for a missing schema, else one node per property. */
  function Section(env: Env, schema: Option<SubSchema>, dataKey: string, fuel: nat): (r: seq<Node>)
    ensures schema.None? ==> r == []
    ensures schema.Some? ==> |r| == |schema.value.properties|
    ensures schema.Some? ==> forall i :: 0 <= i < |r| ==> NodeFor(env, schema.value.properties[i], dataKey, r[i], fuel)
    decreases fuel, 2, 0
  {
    match schema
    case None => []
    case Some(s) => PropertyNodes(env, s.properties, dataKey, fuel)
  }

  /** The nodes of `properties`, one per entry, in key order. */
  function PropertyNodes(env: Env, props: seq<(string, PropertySchema)>, dataKey: string, fuel: nat): (r: seq<Node>)
    ensures |r| == |props|
    ensures forall i :: 0 <= i < |r| ==> NodeFor(env, props[i], dataKey, r[i], fuel)
    decreases fuel, 1, |props|
  {
    if |props| == 0 then []
    else
      var (name, p) := props[0];
      var key := FieldPath(env.getKey(dataKey), name);
      var node :=
        if HasRef(p) then
          var nested := Lookup(env.definitions, RefName(p.ref.value));
          SectionNode(name, key, nested, if fuel == 0 then [] else Section(env, nested, key, fuel - 1))
        else
          FieldNode(name, dataKey, key, p.title, p.fieldType, p.options.GetOr(NoOptions), p.description);
      var rest := PropertyNodes(env, props[1..], dataKey, fuel);
      assert forall i :: 1 <= i < |props| ==> props[i] == props[1..][i - 1];
      [node] + rest
  }

  // ===========================================================================
  // Field widgets (`ScheamFormItem`)
  // ===========================================================================

  datatype Control =
    | SelectControl(choices: Option<seq<SelectOption>>)
    | TextInput(inputType: string, autosize: Option<(nat, nat)>)
    | DynamicTags
    | Switch
    | NumberInput
    | NoControl

  /** The control a field of type `fieldType` with `ui:options` `options` gets. */
  function Dispatch(fieldType: string, options: UiOptions): (c: Control)
    ensures c.SelectControl? <==> fieldType in {"string", "url"} && options.uiType == Some("select")
    ensures c.SelectControl? ==> c.choices == options.values
    ensures c.TextInput? <==> fieldType in {"string", "url"} && options.uiType != Some("select")
    ensures c.TextInput? ==>
      && (c.autosize.Some? <==> options.uiType == Some("textarea"))
      && (c.autosize.Some? ==> c.autosize.value == (3, 5))
      && (c.inputType == "text" <==> options.uiType.None? || options.uiType.value in {"", "text"})
      && (options.uiType.Some? && options.uiType.value != "" ==> c.inputType == options.uiType.value)
    ensures c == DynamicTags <==> fieldType == "array"
    ensures c == Switch <==> fieldType == "boolean"
    ensures c == NumberInput <==> fieldType == "integer"
    ensures c == NoControl <==> fieldType !in {"string", "url", "array", "boolean", "integer"}
  {
    if fieldType == "url" || fieldType == "string" then
      if options.uiType == Some("select") then SelectControl(options.values)
      else
        var inputType := if options.uiType.None? || options.uiType.value == "" then "text" else options.uiType.value;
        TextInput(inputType, if options.uiType == Some("textarea") then Some((3, 5)) else None)
    else if fieldType == "array" then DynamicTags
    else if fieldType == "boolean" then Switch
    else if fieldType == "integer" then NumberInput
    else NoControl
  }

  // ===========================================================================
  // Layout
  // ===========================================================================

  datatype LabelPlacement = PlaceTop | PlaceLeft
  datatype LabelAlign = AlignLeft | AlignRight

  /** The shared form props, switched by the viewport watcher. */
  class FormProps {
    var labelPlacement: LabelPlacement
    var labelAlign: LabelAlign
    const labelWidth: nat

    constructor()
      ensures labelPlacement == PlaceLeft && labelAlign == AlignRight && labelWidth == 150
    {
      labelPlacement, labelAlign, labelWidth := PlaceLeft, AlignRight, 150;
    }

    /** Runs immediately and whenever `viewport.mobile` changes. */
    method OnMobileChange(mobile: bool)
      modifies this
      ensures mobile ==> labelPlacement == PlaceTop && labelAlign == AlignLeft
      ensures !mobile ==> labelPlacement == PlaceLeft && labelAlign == AlignRight
    {
      if mobile {
        labelPlacement, labelAlign := PlaceTop, AlignLeft;
      } else {
        labelPlacement, labelAlign := PlaceLeft, AlignRight;
      }
    }
  }

  function GridCols(mobile: bool): nat {
    if mobile then 1 else 2
  }

  /** A field is half width exactly when `halfGrid` is set and the viewport
      is not mobile: the ensures unfolds `GridCols`, and this rule is all the
      layout promises. */
  function IsHalfWidth(options: UiOptions, mobile: bool): (r: bool)
    ensures r <==> options.halfGrid && !mobile
  {
    options.halfGrid && GridCols(mobile) == 2
  }
}
