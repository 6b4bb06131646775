/** The registry rule engine: first matching rule, and the paths of the objects that were opened. */
module Registry {
  import opened Bits
  import opened Wrappers

  datatype Operation =
    | PreCreateKey | PreOpenKey
    | PostOpenKey | PostCreateKey | PostOpenKeyEx | PostCreateKeyEx
    | PreOpenKeyEx | PreCreateKeyEx
    | PreSetValueKey | PreDeleteKey | EnumerateKey | QueryValueKey | RenameKey
    | KeyHandleClose | PostKeyHandleClose | OtherOperation

  type Object = nat // 0 is the null pointer

  /** REGISTERINFO */
  datatype Info = Info(operation: Operation, access: nat, status: nat, obj: Object, completeName: string,
      processPath: string)

  /** A rule: the keys and processes it is about, its mode (1 white list, 2 black list), and its permissions. */
  datatype Rule = Rule(keys: string, processes: string, mode: int, permissions: nat)

  const KEY_QUERY_VALUE: nat := 0x1
  const KEY_SET_VALUE: nat := 0x2
  const KEY_CREATE_SUB_KEY: nat := 0x4
  const KEY_ENUMERATE_SUB_KEYS: nat := 0x8
  const KEY_CREATE_LINK: nat := 0x20
  const KEY_READ: nat := 0x20019
  const KEY_WRITE: nat := 0x20006
  const KEY_ALL_ACCESS: nat := 0xf003f

  // ----- the permissions of a rule, one hexadecimal digit each -----

  predicate Opens(p: nat) { p / 0x100_0000 % 2 == 1 }
  predicate Closes(p: nat) { p / 0x10_0000 % 2 == 1 }
  predicate Deletes(p: nat) { p / 0x1_0000 % 2 == 1 }
  predicate Creates(p: nat) { p / 0x1000 % 2 == 1 }
  predicate SetsValues(p: nat) { p / 0x100 % 2 == 1 }
  predicate Queries(p: nat) { p / 0x10 % 2 == 1 }
  predicate Renames(p: nat) { p % 2 == 1 }

  predicate PostOpen(op: Operation) { op in {PostOpenKey, PostCreateKey, PostOpenKeyEx, PostCreateKeyEx} }

  /** Whether a rule's permissions cover an operation. */
  predicate Permits(info: Info, p: nat) {
    match info.operation
    case PreCreateKey => Creates(p) || Opens(p)
    case PreOpenKey => Opens(p)
    case PreOpenKeyEx => Opens(p) && PermitsAccess(info.access, p)
    case PreCreateKeyEx => Opens(p) && PermitsAccess(info.access, p)
    case PreSetValueKey => SetsValues(p)
    case PreDeleteKey => Deletes(p)
    case EnumerateKey => Queries(p)
    case QueryValueKey => Queries(p)
    case RenameKey => Renames(p)
    case KeyHandleClose => Closes(p)
    case PostKeyHandleClose => false
    case OtherOperation => false
    case _ => info.status == 0
  }

  predicate PermitsAccess(access: nat, p: nat) {
    || (access == KEY_QUERY_VALUE && Queries(p))
    || access == KEY_ENUMERATE_SUB_KEYS || access == KEY_READ
    || ((access == KEY_CREATE_SUB_KEY || access == KEY_CREATE_LINK) && Creates(p))
    || ((access == KEY_SET_VALUE || access == KEY_WRITE) && SetsValues(p))
    || (access == KEY_ALL_ACCESS && SetsValues(p) && Creates(p) && Deletes(p) && Queries(p) && Renames(p) && Closes(p))
  }

  // ----- which permissions an operation depends on -----

  datatype Permission = Open | Close | Delete | Create | SetValue | Query | Rename

  predicate Grants(p: nat, d: Permission) {
    match d
    case Open => Opens(p)
    case Close => Closes(p)
    case Delete => Deletes(p)
    case Create => Creates(p)
    case SetValue => SetsValues(p)
    case Query => Queries(p)
    case Rename => Renames(p)
  }

  /** The permissions on which it depends whether an operation is covered. An extended create asks for the permission to
      open, and for the one to create only if the access asked for includes creating. */
  function Asked(info: Info): set<Permission> {
    match info.operation
    case PreCreateKey => {Create, Open}
    case PreOpenKey => {Open}
    case PreOpenKeyEx => AskedForAccess(info.access)
    case PreCreateKeyEx => AskedForAccess(info.access)
    case PreSetValueKey => {SetValue}
    case PreDeleteKey => {Delete}
    case EnumerateKey => {Query}
    case QueryValueKey => {Query}
    case RenameKey => {Rename}
    case KeyHandleClose => {Close}
    case _ => {}
  }

  function AskedForAccess(access: nat): set<Permission> {
    if access == KEY_ENUMERATE_SUB_KEYS || access == KEY_READ then {Open}
    else if access == KEY_QUERY_VALUE then {Open, Query}
    else if access == KEY_CREATE_SUB_KEY || access == KEY_CREATE_LINK then {Open, Create}
    else if access == KEY_SET_VALUE || access == KEY_WRITE then {Open, SetValue}
    else if access == KEY_ALL_ACCESS then {Open, Close, Delete, Create, SetValue, Query, Rename}
    else {}
  }

  /** The permission value that grants exactly these. */
  function Value(ds: set<Permission>): nat {
    0x100_0000 * Bit(ds, Open) + 0x10_0000 * Bit(ds, Close) + 0x1_0000 * Bit(ds, Delete) + 0x1000 * Bit(ds, Create)
    + 0x100 * Bit(ds, SetValue) + 0x10 * Bit(ds, Query) + Bit(ds, Rename)
  }

  function Bit(ds: set<Permission>, d: Permission): (b: nat)
    ensures b <= 1 && (b == 1 <==> d in ds)
  {
    if d in ds then 1 else 0
  }

  lemma ValueGrants(ds: set<Permission>, d: Permission)
    ensures Grants(Value(ds), d) <==> d in ds
  {
    hide Bit;
    var v, o, c, e := Value(ds), Bit(ds, Open), Bit(ds, Close), Bit(ds, Delete);
    var r, s, q, n := Bit(ds, Create), Bit(ds, SetValue), Bit(ds, Query), Bit(ds, Rename);
    match d
    case Open => DigitAt(v, 0x100_0000, 0, o, 0x10_0000 * c + 0x1_0000 * e + 0x1000 * r + 0x100 * s + 0x10 * q + n);
    case Close => DigitAt(v, 0x10_0000, 8 * o, c, 0x1_0000 * e + 0x1000 * r + 0x100 * s + 0x10 * q + n);
    case Delete => DigitAt(v, 0x1_0000, 0x80 * o + 8 * c, e, 0x1000 * r + 0x100 * s + 0x10 * q + n);
    case Create => DigitAt(v, 0x1000, 0x800 * o + 0x80 * c + 8 * e, r, 0x100 * s + 0x10 * q + n);
    case SetValue => DigitAt(v, 0x100, 0x8000 * o + 0x800 * c + 0x80 * e + 8 * r, s, 0x10 * q + n);
    case Query => DigitAt(v, 0x10, 0x8_0000 * o + 0x8000 * c + 0x800 * e + 0x80 * r + 8 * s, q, n);
    case Rename =>
      DigitAt(v, 1, 0x80_0000 * o + 0x8_0000 * c + 0x8000 * e + 0x800 * r + 0x80 * s + 8 * q, n, 0);
  }

  lemma DigitAt(v: nat, unit: nat, k: nat, b: nat, low: nat)
    requires unit > 0 && v == unit * (2 * k + b) + low && low < unit && b <= 1
    ensures v / unit % 2 == b
  {
    QuotientUnique(v, unit, 2 * k + b, low);
  }

  predicate SameBut(d: Permission, p: nat, q: nat) {
    forall x: Permission {:trigger Grants(p, x)} {:trigger Grants(q, x)} :: x != d ==> (Grants(p, x) <==> Grants(q, x))
  }

  /** A permission is asked for exactly if it can make the difference. */
  lemma AskedExactly(info: Info, d: Permission)
    ensures d in Asked(info) <==>
              exists p, q {:trigger SameBut(d, p, q)} :: SameBut(d, p, q) && Permits(info, p) != Permits(info, q)
  {
    hide Value, Opens, Closes, Deletes, Creates, SetsValues, Queries, Renames;
    if d in Asked(info) {
      var with := if info.operation == PreCreateKey then {d} else Asked(info);
      var p, q := Value(with - {d}), Value(with);
      forall x: Permission ensures (Grants(p, x) <==> x in with - {d}) && (Grants(q, x) <==> x in with) {
        ValueGrants(with - {d}, x);
        ValueGrants(with, x);
      }
      Granted(p);
      Granted(q);
      assert SameBut(d, p, q) && Permits(info, p) != Permits(info, q);
    } else {
      forall p, q | SameBut(d, p, q) ensures Permits(info, p) == Permits(info, q) {
        Granted(p);
        Granted(q);
      }
    }
  }

  lemma Granted(p: nat)
    ensures Grants(p, Open) == Opens(p) && Grants(p, Close) == Closes(p) && Grants(p, Delete) == Deletes(p)
    ensures Grants(p, Create) == Creates(p) && Grants(p, SetValue) == SetsValues(p) && Grants(p, Query) == Queries(p)
    ensures Grants(p, Rename) == Renames(p)
  {}

  // ----- matching -----

  predicate OccursAt(s: string, t: string, i: nat) { i + |t| <= |s| && s[i..i + |t|] == t }

  /** Whether t occurs in s. */
  predicate Contains(s: string, t: string) {
    exists i {:trigger OccursAt(s, t, i)} :: 0 <= i <= |s| && OccursAt(s, t, i)
  }

  /** What follows the last backslash, nothing if there is none. */
  function ProcessName(path: string): string {
    if |path| == 0 then "" else
      var m := |path| - 1;
      if path[m] == '\\' then "" else if '\\' in path[..m] then ProcessName(path[..m]) + [path[m]] else ""
  }

  predicate Covers(r: Rule, name: string, path: string) {
    Contains(r.keys, name) && ProcessName(path) != "" && Contains(r.processes, ProcessName(path))
  }

  /** The first rule that matches both the key and the process. */
  function FirstMatch(rules: seq<Rule>, name: string, path: string): (r: Option<nat>)
    ensures r.Some? ==> r.value < |rules| && Covers(rules[r.value], name, path)
                        && forall i :: 0 <= i < r.value ==> !Covers(rules[i], name, path)
    ensures r.None? ==> forall i :: 0 <= i < |rules| ==> !Covers(rules[i], name, path)
  {
    if |rules| == 0 then None
    else
      match FirstMatch(rules[..|rules| - 1], name, path)
      case Some(i) => Some(i)
      case None => if Covers(rules[|rules| - 1], name, path) then Some(|rules| - 1) else None
  }

  // ----- the engine -----

  const MINLENGTH: nat := 25

  /** The key an event is about: its own name, or for events without one and for value changes the path of the object.
      None if there is nothing to check. */
  function KeyOf(objects: map<Object, string>, info: Info): Option<string> {
    if info.completeName == "" || info.operation == PreSetValueKey then
      var name := if info.obj != 0 && info.obj in objects then objects[info.obj] else info.completeName;
      if name == "" then None else Some(name)
    else if |info.completeName| <= MINLENGTH then None
    else Some(info.completeName)
  }

  /** The rule that decides on an event, and the key it was found by. */
  function Deciding(rules: seq<Rule>, objects: map<Object, string>, info: Info): (r: Option<(nat, string)>)
    ensures r.Some? ==> r.value.0 < |rules|
  {
    match KeyOf(objects, info)
    case None => None
    case Some(name) =>
      if info.processPath == "" then None
      else
        match FirstMatch(rules, name, info.processPath)
        case None => None
        case Some(i) => Some((i, name))
  }

  /** True lets the operation pass: no rule decides, or a white list permits it, or a black list does not. */
  predicate Passes(rules: seq<Rule>, objects: map<Object, string>, info: Info) {
    match Deciding(rules, objects, info)
    case None => true
    case Some(d) =>
      var r := rules[d.0];
      if r.mode == 1 then Permits(info, r.permissions) else if r.mode == 2 then !Permits(info, r.permissions) else true
  }

  // ----- what the lists come to -----

  /** Rule i is the first that is about the event. */
  predicate DecidedBy(rules: seq<Rule>, objects: map<Object, string>, info: Info, i: nat) {
    i < |rules| && Deciding(rules, objects, info).Some? && Deciding(rules, objects, info).value.0 == i
  }

  /** The operations that rules are there to control: those before an open, create, value change or delete, the queries,
      the rename and the close; for the extended forms with a known access right. */
  predicate Controlled(info: Info) {
    || info.operation in {PreCreateKey, PreOpenKey, PreSetValueKey, PreDeleteKey, EnumerateKey, QueryValueKey,
                          RenameKey, KeyHandleClose}
    || (info.operation in {PreOpenKeyEx, PreCreateKeyEx}
        && info.access in {0x1, 0x2, 0x4, 0x8, 0x20, 0x20019, 0x20006, 0xf003f})
  }

  predicate GrantsNothing(p: nat) { forall d: Permission :: !Grants(p, d) }
  predicate GrantsAll(p: nat) { forall d: Permission :: Grants(p, d) }

  /** Whatever p grants, q grants as well. */
  predicate GrantsLess(p: nat, q: nat) { forall d: Permission {:trigger Grants(p, d)} :: Grants(p, d) ==> Grants(q, d) }

  /** A white list that grants nothing blocks what it controls, one that grants everything lets it pass; a black list
      does the opposite; a rule of any other mode, or none, lets everything pass. So do short names, and processes
      without a path. */
  ghost predicate ListsHold(rules: seq<Rule>, objects: map<Object, string>, info: Info, pass: bool) {
    && ((forall i: nat :: !DecidedBy(rules, objects, info, i)) ==> pass)
    && (1 <= |info.completeName| <= 25 && info.operation != PreSetValueKey ==> pass)
    && ('\\' !in info.processPath ==> pass)
    && (forall i: nat {:trigger DecidedBy(rules, objects, info, i)} :: DecidedBy(rules, objects, info, i) ==>
          && (rules[i].mode != 1 && rules[i].mode != 2 ==> pass)
          && (Controlled(info) && GrantsNothing(rules[i].permissions) ==>
                (rules[i].mode == 1 ==> !pass) && (rules[i].mode == 2 ==> pass))
          && (Controlled(info) && GrantsAll(rules[i].permissions) ==>
                (rules[i].mode == 1 ==> pass) && (rules[i].mode == 2 ==> !pass))
          && (PostOpen(info.operation) ==>
                (rules[i].mode == 1 ==> (pass <==> info.status == 0))
                && (rules[i].mode == 2 ==> (pass <==> info.status != 0))))
  }

  lemma NothingPermitted(info: Info, p: nat)
    requires Controlled(info) && GrantsNothing(p)
    ensures !Permits(info, p)
  {
    hide Opens, Closes, Deletes, Creates, SetsValues, Queries, Renames;
    assert !Grants(p, Open) && !Grants(p, Close) && !Grants(p, Delete) && !Grants(p, Create);
    assert !Grants(p, SetValue) && !Grants(p, Query) && !Grants(p, Rename);
  }

  lemma AllPermitted(info: Info, p: nat)
    requires Controlled(info) && GrantsAll(p)
    ensures Permits(info, p)
  {
    hide Opens, Closes, Deletes, Creates, SetsValues, Queries, Renames;
    assert Grants(p, Open) && Grants(p, Close) && Grants(p, Delete) && Grants(p, Create);
    assert Grants(p, SetValue) && Grants(p, Query) && Grants(p, Rename);
  }

  lemma MorePermitted(info: Info, p: nat, q: nat)
    requires GrantsLess(p, q) && Permits(info, p)
    ensures Permits(info, q)
  {
    hide Opens, Closes, Deletes, Creates, SetsValues, Queries, Renames;
    Granted(p);
    Granted(q);
    forall d: Permission ensures Grants(p, d) ==> Grants(q, d) {}
  }

  lemma ListsDo(rules: seq<Rule>, objects: map<Object, string>, info: Info)
    ensures ListsHold(rules, objects, info, Passes(rules, objects, info))
  {
    hide Deciding, Permits, Controlled, GrantsNothing, GrantsAll, FirstMatch, KeyOf;
    NotCovered(rules, objects, info);
    if Deciding(rules, objects, info).Some? {
      var i := Deciding(rules, objects, info).value.0;
      assert DecidedBy(rules, objects, info, i);
      var p := rules[i].permissions;
      if Controlled(info) && GrantsNothing(p) { NothingPermitted(info, p); }
      if Controlled(info) && GrantsAll(p) { AllPermitted(info, p); }
      if PostOpen(info.operation) { AfterOperations(info, p); }
    }
  }

  lemma NotCovered(rules: seq<Rule>, objects: map<Object, string>, info: Info)
    ensures 1 <= |info.completeName| <= 25 && info.operation != PreSetValueKey ==> Deciding(rules, objects, info).None?
    ensures '\\' !in info.processPath ==> Deciding(rules, objects, info).None?
  {
    hide Contains, ProcessName;
    if '\\' !in info.processPath { NoName(info.processPath); }
  }

  lemma AfterOperations(info: Info, p: nat)
    requires PostOpen(info.operation)
    ensures Permits(info, p) <==> info.status == 0
  {}

  /** The path an event records for its object. */
  function Records(rules: seq<Rule>, objects: map<Object, string>, info: Info): Option<string> {
    match Deciding(rules, objects, info)
    case Some(d) => if PostOpen(info.operation) && info.status == 0 then Some(d.1) else None
    case None => None
  }

  /** The event makes the engine forget its object. */
  predicate Forgets(rules: seq<Rule>, objects: map<Object, string>, info: Info) {
    match Deciding(rules, objects, info)
    case Some(d) => info.operation == KeyHandleClose && Closes(rules[d.0].permissions)
    case None => false
  }

  function Updated(rules: seq<Rule>, objects: map<Object, string>, info: Info): map<Object, string> {
    match Records(rules, objects, info)
    case Some(path) => objects[info.obj := path]
    case None => if Forgets(rules, objects, info) then objects - {info.obj} else objects
  }

  class Engine {
    const rules: seq<Rule>
    var objects: map<Object, string>

    constructor (rules: seq<Rule>)
      ensures this.rules == rules && objects == map[]
    {
      this.rules, objects := rules, map[];
    }

    /** FindRegisterRuleHitEx: whether a rule's permissions cover the operation; keeps the object map. */
    method HitEx(info: Info, p: nat, path: string) returns (hit: bool)
      modifies this
      ensures hit == Permits(info, p)
      ensures objects == if PostOpen(info.operation) && info.status == 0 then old(objects)[info.obj := path]
                         else if info.operation == KeyHandleClose && Closes(p) then old(objects) - {info.obj}
                         else old(objects)
    {
      hide Opens, Closes, Deletes, Creates, SetsValues, Queries, Renames;
      var open, close, delete, create := Opens(p), Closes(p), Deletes(p), Creates(p);
      var setvalue, query, rename := SetsValues(p), Queries(p), Renames(p);
      var access := info.access;
      hit := false;
      match info.operation {
        case PreCreateKey => hit := create || open;
        case PreOpenKey => hit := open;
        case PostOpenKey => hit := Insert(info, path);
        case PostCreateKey => hit := Insert(info, path);
        case PostOpenKeyEx => hit := Insert(info, path);
        case PostCreateKeyEx => hit := Insert(info, path);
        case PreOpenKeyEx => if open { hit := AccessHit(access, p); }
        case PreCreateKeyEx => if open { hit := AccessHit(access, p); }
        case PreSetValueKey => hit := setvalue;
        case PreDeleteKey => hit := delete;
        case EnumerateKey => hit := query;
        case QueryValueKey => hit := query;
        case RenameKey => hit := rename;
        case KeyHandleClose =>
          if close {
            if info.obj in objects { objects := objects - {info.obj}; }
            hit := true;
          }
        case PostKeyHandleClose =>
        case OtherOperation =>
      }
    }

    /** After a successful open or create: InsertRuleMapObjToPathHplr. */
    method Insert(info: Info, path: string) returns (hit: bool)
      modifies this
      ensures hit == (info.status == 0)
      ensures objects == if hit then old(objects)[info.obj := path] else old(objects)
    {
      hit := info.status == 0;
      if hit { objects := objects[info.obj := path]; }
    }

    /** The access rights asked for by the extended open and create. */
    method AccessHit(access: nat, p: nat) returns (hit: bool)
      ensures hit == PermitsAccess(access, p)
    {
      hide Opens, Closes, Deletes, Creates, SetsValues, Queries, Renames;
      hit := false;
      if access == KEY_QUERY_VALUE && Queries(p) {
        hit := true;
      } else if access == KEY_ENUMERATE_SUB_KEYS || access == KEY_READ {
        hit := true;
      } else if (access == KEY_CREATE_SUB_KEY || access == KEY_CREATE_LINK) && Creates(p) {
        hit := true;
      } else if (access == KEY_SET_VALUE || access == KEY_WRITE) && SetsValues(p) {
        hit := true;
      } else if access == KEY_ALL_ACCESS && SetsValues(p) && Creates(p) && Deletes(p) && Queries(p)
          && Renames(p) && Closes(p) {
        hit := true;
      }
    }

    /** FindRegisterRuleHit: the verdict of the first matching rule, and the new object map. */
    method Hit(info: Info) returns (pass: bool)
      modifies this
      ensures pass == Passes(rules, old(objects), info) && ListsHold(rules, old(objects), info, pass)
      ensures objects == Updated(rules, old(objects), info)
    {
      hide Permits, Contains, Closes, ListsHold;
      ListsDo(rules, objects, info);
      if |rules| == 0 { return true; }
      var name := info.completeName;
      if name == "" || info.operation == PreSetValueKey {
        if info.obj != 0 && info.obj in objects { name := objects[info.obj]; }
        if name == "" { return true; }
      } else if |name| <= MINLENGTH {
        return true;
      }
      if info.processPath == "" { return true; }
      for i := 0 to |rules|
        invariant objects == old(objects)
        invariant forall j :: 0 <= j < i ==> !Covers(rules[j], name, info.processPath)
      {
        var rule := rules[i];
        if !Contains(rule.keys, name) { continue; }
        var processName := ProcessName(info.processPath);
        if processName == "" { continue; }
        if !Contains(rule.processes, processName) { continue; }
        assert Covers(rule, name, info.processPath);
        var hit := HitEx(info, rule.permissions, name);
        return if rule.mode == 1 then hit else if rule.mode == 2 then !hit else true;
      }
      pass := true;
    }
  }

  // ----- over traces of events -----

  /** The object map after a trace, starting from an empty one. */
  function After(rules: seq<Rule>, events: seq<Info>): map<Object, string> {
    if |events| == 0 then map[] else Updated(rules, After(rules, events[..|events| - 1]), events[|events| - 1])
  }

  /** Event k recorded this path for object o. */
  predicate Wrote(rules: seq<Rule>, events: seq<Info>, k: nat, o: Object, path: string) {
    k < |events| && events[k].obj == o && Records(rules, After(rules, events[..k]), events[k]) == Some(path)
  }

  /** Event k recorded a path for object o or made the engine forget it. */
  predicate Touched(rules: seq<Rule>, events: seq<Info>, k: nat, o: Object) {
    && k < |events| && events[k].obj == o
    && var objects := After(rules, events[..k]);
       Records(rules, objects, events[k]).Some? || Forgets(rules, objects, events[k])
  }

  /** Event k is the latest to have recorded a path for o, and o has not been forgotten since. */
  ghost predicate Latest(rules: seq<Rule>, events: seq<Info>, k: nat, o: Object, path: string) {
    && Wrote(rules, events, k, o, path)
    && forall j {:trigger Touched(rules, events, j, o)} :: k < j < |events| ==> !Touched(rules, events, j, o)
  }

  lemma FrontSame(rules: seq<Rule>, events: seq<Info>, k: nat, o: Object, path: string)
    requires k < |events| - 1
    ensures Wrote(rules, events[..|events| - 1], k, o, path) == Wrote(rules, events, k, o, path)
    ensures Touched(rules, events[..|events| - 1], k, o) == Touched(rules, events, k, o)
  {
    assert events[..|events| - 1][..k] == events[..k];
  }

  lemma LatestExtends(rules: seq<Rule>, events: seq<Info>, k: nat, o: Object, path: string)
    requires k < |events| - 1 && !Touched(rules, events, |events| - 1, o)
    ensures Latest(rules, events, k, o, path) == Latest(rules, events[..|events| - 1], k, o, path)
  {
    hide Wrote, Touched;
    var front := events[..|events| - 1];
    FrontSame(rules, events, k, o, path);
    forall j | k < j < |front| ensures Touched(rules, front, j, o) == Touched(rules, events, j, o) {
      FrontSame(rules, events, j, o, path);
    }
    if Latest(rules, front, k, o, path) {
      forall j | k < j < |events| ensures !Touched(rules, events, j, o) {
        if j < |front| { assert !Touched(rules, front, j, o); }
      }
    }
    if Latest(rules, events, k, o, path) {
      forall j | k < j < |front| ensures !Touched(rules, front, j, o) {
        assert !Touched(rules, events, j, o);
      }
    }
  }

  /** What the last event does to the map, for one object. */
  lemma LastEvent(rules: seq<Rule>, events: seq<Info>, o: Object, path: string)
    requires |events| > 0
    ensures Touched(rules, events, |events| - 1, o) ==>
              ((o in After(rules, events) && After(rules, events)[o] == path) <==>
                  Wrote(rules, events, |events| - 1, o, path))
    ensures !Touched(rules, events, |events| - 1, o) ==>
              && (o in After(rules, events) <==> o in After(rules, events[..|events| - 1]))
              && (o in After(rules, events) ==> After(rules, events)[o] == After(rules, events[..|events| - 1])[o])
    ensures !Touched(rules, events, |events| - 1, o) ==> !Wrote(rules, events, |events| - 1, o, path)
  {
    hide Records, Forgets;
    RecordsOrForgets(rules, After(rules, events[..|events| - 1]), events[|events| - 1]);
  }

  lemma RecordsOrForgets(rules: seq<Rule>, objects: map<Object, string>, info: Info)
    ensures !(Records(rules, objects, info).Some? && Forgets(rules, objects, info))
  {}

  /** After any trace of events, the map holds for an object the path its latest recording gave it, if it has not been
      forgotten since, and nothing otherwise. */
  lemma {:induction false} TraceDecides(rules: seq<Rule>, events: seq<Info>, o: Object, path: string)
    ensures (o in After(rules, events) && After(rules, events)[o] == path)
       <==> exists k {:trigger Latest(rules, events, k, o, path)} :: Latest(rules, events, k, o, path)
  {
    if |events| > 0 {
      var n := |events| - 1;
      LastEvent(rules, events, o, path);
      if Touched(rules, events, n, o) {
        LatestIsLast(rules, events, o, path);
      } else {
        TraceDecides(rules, events[..n], o, path);
        LatestIsEarlier(rules, events, o, path);
      }
    }
  }

  lemma LatestIsLast(rules: seq<Rule>, events: seq<Info>, o: Object, path: string)
    requires |events| > 0 && Touched(rules, events, |events| - 1, o)
    ensures (exists k {:trigger Latest(rules, events, k, o, path)} :: Latest(rules, events, k, o, path))
       <==> Wrote(rules, events, |events| - 1, o, path)
  {
    hide Touched, After, Records;
    if Wrote(rules, events, |events| - 1, o, path) { assert Latest(rules, events, |events| - 1, o, path); }
  }

  lemma LatestIsEarlier(rules: seq<Rule>, events: seq<Info>, o: Object, path: string)
    requires |events| > 0 && !Touched(rules, events, |events| - 1, o)
    requires !Wrote(rules, events, |events| - 1, o, path)
    ensures (exists k {:trigger Latest(rules, events, k, o, path)} :: Latest(rules, events, k, o, path))
       <==> exists k {:trigger Latest(rules, events[..|events| - 1], k, o, path)} ::
              Latest(rules, events[..|events| - 1], k, o, path)
  {
    hide Touched, After, Records;
    var front := events[..|events| - 1];
    if k :| Latest(rules, events, k, o, path) {
      LatestExtends(rules, events, k, o, path);
      assert Latest(rules, front, k, o, path);
    }
    if k :| Latest(rules, front, k, o, path) {
      LatestExtends(rules, events, k, o, path);
      assert Latest(rules, events, k, o, path);
    }
  }

  /** What a recorded event was: a successful open or create that a rule matched. */
  lemma RecordedBy(rules: seq<Rule>, events: seq<Info>, k: nat, o: Object, path: string)
    requires Wrote(rules, events, k, o, path)
    ensures PostOpen(events[k].operation) && events[k].status == 0 && events[k].obj == o
    ensures KeyOf(After(rules, events[..k]), events[k]) == Some(path)
    ensures FirstMatch(rules, path, events[k].processPath).Some?
  {}

  /** Every path in the map is the one under which its object was last opened or created with success, and some rule
      covers that path for the process that did so. */
  lemma HeldPath(rules: seq<Rule>, events: seq<Info>, o: Object) returns (k: nat)
    requires o in After(rules, events)
    ensures k < |events| && PostOpen(events[k].operation) && events[k].status == 0 && events[k].obj == o
    ensures KeyOf(After(rules, events[..k]), events[k]) == Some(After(rules, events)[o])
    ensures FirstMatch(rules, After(rules, events)[o], events[k].processPath).Some?
    ensures forall j :: k < j < |events| ==> !Touched(rules, events, j, o)
  {
    hide FirstMatch, KeyOf, PostOpen, Touched;
    var path := After(rules, events)[o];
    TraceDecides(rules, events, o, path);
    k :| Latest(rules, events, k, o, path);
    RecordedBy(rules, events, k, o, path);
  }

  lemma AfterNothing(rules: seq<Rule>)
    ensures After(rules, []) == map[]
  {}

  lemma AfterNext(rules: seq<Rule>, events: seq<Info>, i: nat)
    requires i < |events|
    ensures After(rules, events[..i + 1]) == Updated(rules, After(rules, events[..i]), events[i])
  {
    hide Updated;
    assert events[..i + 1][..i] == events[..i];
  }

  /** The engine run over a trace: each verdict is that of the lists, in the state the events before it left. */
  method Replay(rules: seq<Rule>, events: seq<Info>) returns (verdicts: seq<bool>, objects: map<Object, string>)
    ensures objects == After(rules, events) && |verdicts| == |events|
    ensures forall k :: 0 <= k < |events| ==>
              && verdicts[k] == Passes(rules, After(rules, events[..k]), events[k])
              && ListsHold(rules, After(rules, events[..k]), events[k], verdicts[k])
  {
    hide Passes, Updated, After, ListsHold;
    var engine := new Engine(rules);
    AfterNothing(rules);
    verdicts := [];
    for i := 0 to |events|
      invariant fresh(engine) && engine.rules == rules && engine.objects == After(rules, events[..i]) && |verdicts| == i
      invariant forall k :: 0 <= k < i ==>
                  && verdicts[k] == Passes(rules, After(rules, events[..k]), events[k])
                  && ListsHold(rules, After(rules, events[..k]), events[k], verdicts[k])
    {
      AfterNext(rules, events, i);
      var pass := engine.Hit(events[i]);
      verdicts := verdicts + [pass];
    }
    assert events[..|events|] == events;
    objects := engine.objects;
  }

  // ----- granting more -----

  predicate SameExceptPermissions(rules: seq<Rule>, rules': seq<Rule>) {
    |rules| == |rules'| && forall i :: 0 <= i < |rules| ==>
        rules'[i].keys == rules[i].keys && rules'[i].processes == rules[i].processes && rules'[i].mode == rules[i].mode
  }

  lemma {:induction false} SameFirstMatch(rules: seq<Rule>, rules': seq<Rule>, name: string, path: string)
    requires SameExceptPermissions(rules, rules')
    ensures FirstMatch(rules', name, path) == FirstMatch(rules, name, path)
  {
    hide Contains, ProcessName;
    if |rules| > 0 { SameFirstMatch(rules[..|rules| - 1], rules'[..|rules| - 1], name, path); }
  }

  /** Two engines whose rules differ in what they grant only: where the second one grants more, a white list of the
      second passes what one of the first does, and a black list blocks what one of the first does. */
  method Compare(e: Engine, e': Engine, info: Info) returns (pass: bool, pass': bool)
    requires e != e' && e.objects == e'.objects && SameExceptPermissions(e.rules, e'.rules)
    modifies e, e'
    ensures forall i: nat {:trigger DecidedBy(e.rules, old(e.objects), info, i)} ::
              DecidedBy(e.rules, old(e.objects), info, i)
              && GrantsLess(e.rules[i].permissions, e'.rules[i].permissions) ==>
                (e.rules[i].mode == 1 && pass ==> pass') && (e.rules[i].mode == 2 && !pass ==> !pass')
  {
    hide Permits, ListsHold, GrantsLess, KeyOf, FirstMatch, Updated;
    ghost var objects := e.objects;
    pass := e.Hit(info);
    pass' := e'.Hit(info);
    if KeyOf(objects, info).Some? {
      SameFirstMatch(e.rules, e'.rules, KeyOf(objects, info).value, info.processPath);
    }
    forall i: nat | DecidedBy(e.rules, objects, info, i) && GrantsLess(e.rules[i].permissions, e'.rules[i].permissions)
      ensures (e.rules[i].mode == 1 && pass ==> pass') && (e.rules[i].mode == 2 && !pass ==> !pass')
    {
      if Permits(info, e.rules[i].permissions) {
        MorePermitted(info, e.rules[i].permissions, e'.rules[i].permissions);
      }
    }
  }

  // ----- one rule, seen from outside -----

  const KEY: string := "\\REGISTRY\\MACHINE\\SOFTWARE\\Hades"

  /** One rule in an engine that has seen nothing, with KEY anywhere among its keys and a.exe among its processes; and
      an event on KEY from a.exe. */
  method Single(front: string, back: string, mode: int, permissions: nat, operation: Operation, access: nat)
      returns (pass: bool)
    requires mode in {1, 2}
    ensures pass <==> ((mode == 1) <==> Permits(Info(operation, access, 0, 0, KEY, "C:\\a.exe"), permissions))
  {
    hide Permits, Updated, ListsHold, Contains;
    var engine := new Engine([Rule(front + KEY + back, front + "a.exe" + back, mode, permissions)]);
    var info := Info(operation, access, 0, 0, KEY, "C:\\a.exe");
    ExampleProcess();
    OccursWithin(front, KEY, back);
    OccursWithin(front, "a.exe", back);
    FirstOfOne(engine.rules, KEY, info.processPath);
    pass := engine.Hit(info);
  }

  /** A single permission covers these operations: a white list lets just them pass, a black list just the others. */
  method OneRule(front: string, back: string, mode: int, permissions: nat, operation: Operation) returns (pass: bool)
    requires mode in {1, 2} && !PostOpen(operation) && operation != PreOpenKeyEx && operation != PreCreateKeyEx
    requires permissions in {0x100_0000, 0x10_0000, 0x1_0000, 0x1000, 0x100, 0x10, 0x1}
    ensures pass <==> ((mode == 1) <==>
                        (operation, permissions) in {(PreCreateKey, 0x1000), (PreCreateKey, 0x100_0000),
                          (PreOpenKey, 0x100_0000), (PreSetValueKey, 0x100), (PreDeleteKey, 0x1_0000),
                          (EnumerateKey, 0x10), (QueryValueKey, 0x10), (RenameKey, 0x1), (KeyHandleClose, 0x10_0000)})
  {
    pass := Single(front, back, mode, permissions, operation, 0);
  }

  /** The rights that an extended open may ask for if opening and one thing more is granted. */
  method OneRight(permissions: nat, access: nat) returns (pass: bool)
    requires permissions in {0x100_0000, 0x110_0000, 0x101_0000, 0x100_1000, 0x100_0100, 0x100_0010, 0x100_0001}
    ensures pass <==> || access in {0x8, 0x20019}
                      || (access == 0x1 && permissions == 0x100_0010)
                      || (access in {0x4, 0x20} && permissions == 0x100_1000)
                      || (access in {0x2, 0x20006} && permissions == 0x100_0100)
  {
    pass := Single("", "", 1, permissions, PreOpenKeyEx, access);
  }

  lemma OccursWithin(front: string, t: string, back: string)
    ensures Contains(front + t + back, t)
  {
    assert OccursAt(front + t + back, t, |front|);
  }

  lemma FirstOfOne(rules: seq<Rule>, name: string, path: string)
    requires |rules| == 1 && Covers(rules[0], name, path)
    ensures FirstMatch(rules, name, path) == Some(0)
  {
    hide Contains, ProcessName;
  }

  lemma ExampleProcess()
    ensures ProcessName("C:\\a.exe") == "a.exe"
  {
    NameBehind("C:\\", "a.exe");
    assert "C:\\" + "a.exe" == "C:\\a.exe";
  }

  /** The process name is what follows the last backslash. */
  lemma {:induction false} NameBehind(dir: string, name: string)
    requires |dir| > 0 && dir[|dir| - 1] == '\\' && '\\' !in name
    ensures ProcessName(dir + name) == name
    decreases |name|
  {
    var path := dir + name;
    if |name| > 0 {
      var front := name[..|name| - 1];
      assert path[..|path| - 1] == dir + front && path[|path| - 1] == name[|name| - 1];
      assert (dir + front)[|dir| - 1] == '\\';
      NameBehind(dir, front);
    } else {
      assert path == dir;
    }
  }

  lemma {:induction false} NoName(path: string)
    requires '\\' !in path
    ensures ProcessName(path) == ""
  {}
}
