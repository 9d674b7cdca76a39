/** Checking tool parameters against a schema (tooldef/tooldef.go, `ValidateParams`). */
module ToolParams {
  import opened Common
  import opened Text

  /** A parameter value: nil, a string, an array with its length, or anything else. */
  datatype Value = Nil | Str(s: string) | List(length: nat) | Other

  /** The parts of a tool's schema the check reads: required names, the enum of each
      property (empty for none), and the exactly-one-of groups. */
  datatype Schema = Schema(required: seq<string>, enums: map<string, seq<string>>, oneOf: seq<seq<string>>)

  datatype Error = Missing(name: string) | BadEnum(name: string) | NoneOf(group: seq<string>) | ManyOf(group: seq<string>)

  type Params = map<string, Value>

  /** Reading a Go map: nil for a missing key. */
  function At(p: Params, name: string): Value {
    if name in p then p[name] else Nil
  }

  // ---------- the constraints ----------

  /** `strings.EqualFold`, on ASCII letters. */
  predicate EqualFold(a: string, b: string) {
    ToLower(a) == ToLower(b)
  }

  /** `paramProvided`. */
  predicate Provided(v: Value) {
    match v
    case Nil => false
    case Str(s) => !Blank(s)
    case List(n) => n > 0
    case Other => true
  }

  /** A required parameter is there and is not a blank string; an empty array will do. */
  predicate Present(v: Value) {
    !v.Nil? && (v.Str? ==> !Blank(v.s))
  }

  /** The first enum value equal up to case. */
  function FirstMatch(options: seq<string>, s: string): Option<string> {
    if options == [] then None
    else if EqualFold(s, options[0]) then Some(options[0])
    else FirstMatch(options[1..], s)
  }

  predicate EnumOk(schema: Schema, name: string, v: Value) {
    name in schema.enums && schema.enums[name] != [] && v.Str? ==> FirstMatch(schema.enums[name], v.s).Some?
  }

  /** The value after the check: enum strings take the schema's spelling. */
  function Canonical(schema: Schema, name: string, v: Value): Value {
    if name in schema.enums && v.Str? && FirstMatch(schema.enums[name], v.s).Some?
    then Str(FirstMatch(schema.enums[name], v.s).value)
    else v
  }

  function Rewritten(schema: Schema, p: Params): Params {
    map name | name in p :: Canonical(schema, name, p[name])
  }

  function CountProvided(p: Params, group: seq<string>): nat {
    if group == [] then 0
    else CountProvided(p, group[..|group| - 1]) + if Provided(At(p, group[|group| - 1])) then 1 else 0
  }

  predicate RequiredHolds(schema: Schema, p: Params) {
    forall i :: 0 <= i < |schema.required| ==> Present(At(p, schema.required[i]))
  }

  predicate EnumsHold(schema: Schema, p: Params) {
    forall name :: name in schema.enums ==> EnumOk(schema, name, At(p, name))
  }

  predicate OneOfHolds(schema: Schema, p: Params) {
    forall g :: 0 <= g < |schema.oneOf| ==> CountProvided(p, schema.oneOf[g]) == 1
  }

  predicate Valid(schema: Schema, p: Params) {
    RequiredHolds(schema, p) && EnumsHold(schema, p) && OneOfHolds(schema, p)
  }

  // ---------- the errors ----------

  /** The first required parameter that is not there. */
  ghost predicate FirstMissing(schema: Schema, p: Params, name: string) {
    exists i :: 0 <= i < |schema.required| && schema.required[i] == name && !Present(At(p, name))
                && forall j :: 0 <= j < i ==> Present(At(p, schema.required[j]))
  }

  /** The first group without exactly one provided parameter, and on which side it fails. */
  ghost predicate FirstBadGroup(schema: Schema, p: Params, e: Error) {
    exists g :: 0 <= g < |schema.oneOf|
                && (forall j :: 0 <= j < g ==> CountProvided(p, schema.oneOf[j]) == 1)
                && if CountProvided(p, schema.oneOf[g]) == 0 then e == NoneOf(schema.oneOf[g])
                   else CountProvided(p, schema.oneOf[g]) > 1 && e == ManyOf(schema.oneOf[g])
  }

  /** The error of a failing check: required parameters first, then some bad enum, and the
      first bad group only when nothing else is wrong. */
  ghost predicate ErrorFits(schema: Schema, p: Params, e: Error) {
    match e
    case Missing(name) => FirstMissing(schema, p, name)
    case BadEnum(name) => RequiredHolds(schema, p) && !EnumOk(schema, name, At(p, name))
    case NoneOf(_) => RequiredHolds(schema, p) && EnumsHold(schema, p) && FirstBadGroup(schema, p, e)
    case ManyOf(_) => RequiredHolds(schema, p) && EnumsHold(schema, p) && FirstBadGroup(schema, p, e)
  }

  /** Parameters left alone or in the schema's spelling, name by name. */
  ghost predicate PartlyRewritten(schema: Schema, p: Params, q: Params) {
    && q.Keys == p.Keys
    && forall name :: name in p ==> q[name] == p[name] || q[name] == Canonical(schema, name, p[name])
  }

  // ---------- rewriting changes nothing that is checked ----------

  ghost predicate AllSpace(s: string) {
    forall i :: 0 <= i < |s| ==> IsSpace(s[i])
  }

  lemma {:induction false} TrimRightBlank(s: string)
    ensures TrimRight(s) == "" <==> AllSpace(s)
  {
    if s != "" && IsSpace(s[|s| - 1]) {
      TrimRightBlank(s[..|s| - 1]);
    }
  }

  lemma {:induction false} TrimLeftBlank(s: string)
    ensures AllSpace(TrimLeft(s)) <==> AllSpace(s)
  {
    if s != "" && IsSpace(s[0]) {
      TrimLeftBlank(s[1..]);
      assert s == [s[0]] + s[1..];
    }
  }

  lemma {:induction false} BlankIff(s: string)
    ensures Blank(s) <==> AllSpace(s)
  {
    TrimRightBlank(TrimLeft(s));
    TrimLeftBlank(s);
  }

  lemma {:induction false} FoldKeepsBlank(a: string, b: string)
    requires EqualFold(a, b)
    ensures Blank(a) <==> Blank(b)
  {
    assert |a| == |ToLower(a)| == |b|;
    forall i | 0 <= i < |a|
      ensures IsSpace(a[i]) <==> IsSpace(b[i])
    {
      assert ToLower(a)[i] == LowerChar(a[i]) && ToLower(b)[i] == LowerChar(b[i]);
    }
    BlankIff(a);
    BlankIff(b);
  }

  /** The match is equal up to case, and matches itself first: case folding is an equivalence. */
  lemma {:induction false} FirstMatchStable(options: seq<string>, s: string)
    requires FirstMatch(options, s).Some?
    ensures EqualFold(s, FirstMatch(options, s).value)
    ensures FirstMatch(options, FirstMatch(options, s).value) == FirstMatch(options, s)
  {
    if !EqualFold(s, options[0]) {
      FirstMatchStable(options[1..], s);
    }
  }

  lemma {:induction false} CanonicalKeeps(schema: Schema, name: string, v: Value)
    ensures var w := Canonical(schema, name, v);
            && Present(w) == Present(v)
            && Provided(w) == Provided(v)
            && EnumOk(schema, name, w) == EnumOk(schema, name, v)
            && Canonical(schema, name, w) == w
  {
    if name in schema.enums && v.Str? && FirstMatch(schema.enums[name], v.s).Some? {
      FirstMatchStable(schema.enums[name], v.s);
      FoldKeepsBlank(v.s, FirstMatch(schema.enums[name], v.s).value);
    }
  }

  /** Two parameter maps that agree name by name on what is checked. */
  ghost predicate Alike(schema: Schema, p: Params, q: Params) {
    forall name :: AlikeAt(schema, p, q, name)
  }

  ghost predicate AlikeAt(schema: Schema, p: Params, q: Params, name: string) {
    && Present(At(p, name)) == Present(At(q, name))
    && Provided(At(p, name)) == Provided(At(q, name))
    && EnumOk(schema, name, At(p, name)) == EnumOk(schema, name, At(q, name))
  }

  lemma {:induction false} AlikeCounts(schema: Schema, p: Params, q: Params, group: seq<string>)
    requires Alike(schema, p, q)
    ensures CountProvided(p, group) == CountProvided(q, group)
  {
    if group != [] {
      AlikeCounts(schema, p, q, group[..|group| - 1]);
      assert AlikeAt(schema, p, q, group[|group| - 1]);
    }
  }

  lemma {:induction false} AlikeValid(schema: Schema, p: Params, q: Params)
    requires Alike(schema, p, q)
    ensures OneOfHolds(schema, p) == OneOfHolds(schema, q) && Valid(schema, p) == Valid(schema, q)
  {
    forall g | 0 <= g < |schema.oneOf|
      ensures CountProvided(p, schema.oneOf[g]) == CountProvided(q, schema.oneOf[g])
    {
      AlikeCounts(schema, p, q, schema.oneOf[g]);
    }
    assert RequiredHolds(schema, p) == RequiredHolds(schema, q) by {
      forall i | 0 <= i < |schema.required|
        ensures Present(At(p, schema.required[i])) == Present(At(q, schema.required[i]))
      {
        assert AlikeAt(schema, p, q, schema.required[i]);
      }
    }
    assert EnumsHold(schema, p) == EnumsHold(schema, q) by {
      forall name | name in schema.enums
        ensures EnumOk(schema, name, At(p, name)) == EnumOk(schema, name, At(q, name))
      {
        assert AlikeAt(schema, p, q, name);
      }
    }
  }

  lemma {:induction false} SameBadGroup(schema: Schema, p: Params, q: Params, e: Error)
    requires Alike(schema, p, q) && FirstBadGroup(schema, q, e)
    ensures FirstBadGroup(schema, p, e)
  {
    forall g | 0 <= g < |schema.oneOf|
      ensures CountProvided(p, schema.oneOf[g]) == CountProvided(q, schema.oneOf[g])
    {
      AlikeCounts(schema, p, q, schema.oneOf[g]);
    }
  }

  lemma {:induction false} RewrittenAlike(schema: Schema, p: Params)
    ensures Alike(schema, p, Rewritten(schema, p))
  {
    forall name
      ensures AlikeAt(schema, p, Rewritten(schema, p), name)
    {
      CanonicalKeeps(schema, name, At(p, name));
    }
  }

  /** A second check succeeds and changes nothing. */
  lemma {:induction false} SecondCheck(schema: Schema, p: Params)
    requires Valid(schema, p)
    ensures Valid(schema, Rewritten(schema, p))
    ensures Rewritten(schema, Rewritten(schema, p)) == Rewritten(schema, p)
  {
    RewrittenAlike(schema, p);
    AlikeValid(schema, p, Rewritten(schema, p));
    forall name | name in p
      ensures Canonical(schema, name, Canonical(schema, name, p[name])) == Canonical(schema, name, p[name])
    {
      CanonicalKeeps(schema, name, p[name]);
    }
  }

  // ---------- what the constraints say ----------

  /** The same letter, or the same in the other case. */
  ghost predicate SameLetter(c: char, d: char) {
    || c == d
    || ('A' <= c <= 'Z' && d as int - c as int == 'a' as int - 'A' as int)
    || ('A' <= d <= 'Z' && c as int - d as int == 'a' as int - 'A' as int)
  }

  ghost predicate SameWord(a: string, b: string) {
    |a| == |b| && forall i :: 0 <= i < |a| ==> SameLetter(a[i], b[i])
  }

  lemma {:induction false} EqualFoldMeans(a: string, b: string)
    ensures EqualFold(a, b) <==> SameWord(a, b)
  {
    if EqualFold(a, b) {
      assert |a| == |ToLower(a)| == |b|;
      forall i | 0 <= i < |a|
        ensures SameLetter(a[i], b[i])
      {
        assert ToLower(a)[i] == LowerChar(a[i]) && ToLower(b)[i] == LowerChar(b[i]);
      }
    }
    if SameWord(a, b) {
      forall i | 0 <= i < |a|
        ensures ToLower(a)[i] == ToLower(b)[i]
      {
        assert SameLetter(a[i], b[i]);
      }
    }
  }

  /** Something other than blanks, tabs and line ends. */
  ghost predicate Visible(s: string) {
    exists i :: 0 <= i < |s| && s[i] != ' ' && !(9 <= s[i] as int <= 13)
  }

  /** A value that counts in a group: a visible text, a list with elements, a number, a flag. */
  ghost predicate Given(v: Value) {
    v.Other? || (v.Str? && Visible(v.s)) || (v.List? && v.length > 0)
  }

  ghost predicate GivenIn(p: Params, name: string) {
    name in p && Given(p[name])
  }

  /** Position `i` is the only one of the group that is given. */
  ghost predicate OnlyGiven(p: Params, group: seq<string>, i: int) {
    0 <= i < |group| && GivenIn(p, group[i]) && forall j :: 0 <= j < |group| && GivenIn(p, group[j]) ==> j == i
  }

  ghost predicate ExactlyOne(p: Params, group: seq<string>) {
    exists i :: OnlyGiven(p, group, i)
  }

  /** A required parameter is there, is not nil and is not a blank text. */
  ghost predicate IsThere(p: Params, name: string) {
    name in p && !p[name].Nil? && (p[name].Str? ==> Visible(p[name].s))
  }

  /** A text with an enum is one of its words up to case. */
  ghost predicate IsOneOf(schema: Schema, p: Params, name: string)
    requires name in schema.enums
  {
    schema.enums[name] != [] && name in p && p[name].Str? ==>
      exists k :: 0 <= k < |schema.enums[name]| && SameWord(p[name].s, schema.enums[name][k])
  }

  /** The parameters fulfil the schema: what is required is there, enums hold, and of each
      group exactly one is given. */
  ghost predicate Fulfils(schema: Schema, p: Params) {
    && (forall i :: 0 <= i < |schema.required| ==> IsThere(p, schema.required[i]))
    && (forall name :: name in schema.enums ==> IsOneOf(schema, p, name))
    && (forall g :: 0 <= g < |schema.oneOf| ==> ExactlyOne(p, schema.oneOf[g]))
  }

  lemma {:induction false} GivenMeans(p: Params, name: string)
    ensures Provided(At(p, name)) <==> GivenIn(p, name)
    ensures Present(At(p, name)) <==> IsThere(p, name)
  {
    if name in p && p[name].Str? {
      BlankIff(p[name].s);
    }
  }

  /** The first option that is the same word. */
  lemma {:induction false} FirstMatchMeans(options: seq<string>, s: string)
    ensures match FirstMatch(options, s)
            case Some(o) => exists k :: 0 <= k < |options| && o == options[k] && SameWord(s, o)
                                        && forall j :: 0 <= j < k ==> !SameWord(s, options[j])
            case None => forall k :: 0 <= k < |options| ==> !SameWord(s, options[k])
  {
    if options != [] {
      EqualFoldMeans(s, options[0]);
      if EqualFold(s, options[0]) {
        assert options[0] == FirstMatch(options, s).value;
      } else {
        FirstMatchMeans(options[1..], s);
        if FirstMatch(options, s).Some? {
          var k :| 0 <= k < |options| - 1 && FirstMatch(options, s).value == options[1..][k]
                && forall j :: 0 <= j < k ==> !SameWord(s, options[1..][j]);
          forall j | 0 <= j < k + 1
            ensures !SameWord(s, options[j])
          {
            assert j > 0 ==> options[1..][j - 1] == options[j];
          }
          assert options[k + 1] == FirstMatch(options, s).value;
        } else {
          forall k | 0 <= k < |options|
            ensures !SameWord(s, options[k])
          {
            assert k > 0 ==> options[1..][k - 1] == options[k];
          }
        }
      }
    }
  }

  lemma {:induction false} NoneCounted(p: Params, group: seq<string>)
    ensures CountProvided(p, group) == 0 <==> forall i :: 0 <= i < |group| ==> !GivenIn(p, group[i])
  {
    if group != [] {
      var n := |group| - 1;
      NoneCounted(p, group[..n]);
      GivenMeans(p, group[n]);
      assert forall i :: 0 <= i < n ==> group[..n][i] == group[i];
    }
  }

  lemma {:induction false} OneCounted(p: Params, group: seq<string>)
    ensures CountProvided(p, group) == 1 <==> ExactlyOne(p, group)
  {
    if group != [] {
      var n := |group| - 1;
      OneCounted(p, group[..n]);
      NoneCounted(p, group[..n]);
      GivenMeans(p, group[n]);
      assert forall i :: 0 <= i < n ==> group[..n][i] == group[i];
      if GivenIn(p, group[n]) {
        assert CountProvided(p, group) == 1 ==> OnlyGiven(p, group, n);
      } else {
        forall i
          ensures OnlyGiven(p, group[..n], i) <==> OnlyGiven(p, group, i)
        {
        }
      }
    }
  }

  lemma {:induction false} EnumMeans(schema: Schema, p: Params, name: string)
    requires name in schema.enums
    ensures EnumOk(schema, name, At(p, name)) <==> IsOneOf(schema, p, name)
  {
    if name in p && p[name].Str? {
      FirstMatchMeans(schema.enums[name], p[name].s);
    }
  }

  /** The check's three constraints are what the schema says. */
  lemma {:induction false} ValidMeans(schema: Schema, p: Params)
    ensures Valid(schema, p) <==> Fulfils(schema, p)
  {
    forall i | 0 <= i < |schema.required|
      ensures Present(At(p, schema.required[i])) <==> IsThere(p, schema.required[i])
    {
      GivenMeans(p, schema.required[i]);
    }
    forall name | name in schema.enums
      ensures EnumOk(schema, name, At(p, name)) <==> IsOneOf(schema, p, name)
    {
      EnumMeans(schema, p, name);
    }
    forall g | 0 <= g < |schema.oneOf|
      ensures CountProvided(p, schema.oneOf[g]) == 1 <==> ExactlyOne(p, schema.oneOf[g])
    {
      OneCounted(p, schema.oneOf[g]);
    }
    assert RequiredHolds(schema, p) <==> forall i :: 0 <= i < |schema.required| ==> IsThere(p, schema.required[i]);
    assert EnumsHold(schema, p) <==> forall name :: name in schema.enums ==> IsOneOf(schema, p, name);
    assert OneOfHolds(schema, p) <==> forall g :: 0 <= g < |schema.oneOf| ==> ExactlyOne(p, schema.oneOf[g]);
  }

  /** What the check leaves: a text with an enum in the spelling of the first word it is the
      same as, everything else as it was. */
  lemma {:induction false} RewrittenMeans(schema: Schema, p: Params, name: string)
    requires name in p
    ensures name in Rewritten(schema, p)
    ensures name in schema.enums && p[name].Str? && FirstMatch(schema.enums[name], p[name].s).Some? ==>
              exists k :: 0 <= k < |schema.enums[name]| && Rewritten(schema, p)[name] == Str(schema.enums[name][k])
                          && SameWord(p[name].s, schema.enums[name][k])
                          && forall j :: 0 <= j < k ==> !SameWord(p[name].s, schema.enums[name][j])
    ensures name !in schema.enums || !p[name].Str? ==> Rewritten(schema, p)[name] == p[name]
  {
    if name in schema.enums && p[name].Str? {
      FirstMatchMeans(schema.enums[name], p[name].s);
    }
  }

  // ---------- the check ----------

  /** The caller's parameter map, which the check rewrites in place. */
  class ParamBag {
    var m: Params

    constructor (m: Params)
      ensures this.m == m
    {
      this.m := m;
    }
  }

  /** The parameters after the enums named in `done` are rewritten. */
  function RewrittenIn(schema: Schema, p: Params, done: set<string>): Params {
    map name | name in p :: if name in done then Canonical(schema, name, p[name]) else p[name]
  }

  method CheckRequired(schema: Schema, p: Params) returns (err: Option<Error>)
    ensures err.None? <==> RequiredHolds(schema, p)
    ensures err.Some? ==> err.value.Missing? && FirstMissing(schema, p, err.value.name)
  {
    for i := 0 to |schema.required|
      invariant forall j :: 0 <= j < i ==> Present(At(p, schema.required[j]))
    {
      var v := At(p, schema.required[i]);
      if v.Nil? || (v.Str? && Blank(v.s)) {
        return Some(Missing(schema.required[i]));
      }
    }
    err := None;
  }

  /** The loop over the properties, in the given order; an error may come after some
      parameters are already rewritten. */
  method CheckEnums(schema: Schema, bag: ParamBag, order: seq<string>) returns (err: Option<Error>)
    requires forall name :: name in order <==> name in schema.enums
    modifies bag
    ensures err.None? <==> EnumsHold(schema, old(bag.m))
    ensures err.None? ==> bag.m == Rewritten(schema, old(bag.m))
    ensures err.Some? ==> err.value.BadEnum? && !EnumOk(schema, err.value.name, At(old(bag.m), err.value.name))
    ensures PartlyRewritten(schema, old(bag.m), bag.m)
  {
    ghost var done: set<string> := {};
    ghost var p := bag.m;
    for i := 0 to |order|
      invariant done == set name | name in order[..i]
      invariant bag.m == RewrittenIn(schema, p, done)
      invariant forall name :: name in done ==> EnumOk(schema, name, At(p, name))
    {
      var name := order[i];
      assert order[i] in order;
      ghost var was := done;
      done := done + {name};
      assert order[..i + 1] == order[..i] + [name];
      var options := schema.enums[name];
      var v := At(bag.m, name);
      CanonicalKeeps(schema, name, At(p, name));
      if |options| == 0 || !v.Str? {
        assert Canonical(schema, name, At(p, name)) == At(p, name);
        continue;
      }
      var found := FirstOption(options, v.s);
      if found.None? {
        assert v == At(p, name);
        return Some(BadEnum(name));
      }
      bag.m := bag.m[name := Str(found.value)];
    }
    assert order[..|order|] == order;
    forall name | name in p && name !in done
      ensures Canonical(schema, name, p[name]) == p[name]
    {
    }
    err := None;
  }

  method FirstOption(options: seq<string>, s: string) returns (found: Option<string>)
    ensures found == FirstMatch(options, s)
  {
    for i := 0 to |options|
      invariant FirstMatch(options, s) == FirstMatch(options[i..], s)
    {
      if EqualFold(s, options[i]) {
        return Some(options[i]);
      }
      assert options[i..][1..] == options[i + 1..];
    }
    found := None;
  }

  method CheckGroups(schema: Schema, p: Params) returns (err: Option<Error>)
    ensures err.None? <==> OneOfHolds(schema, p)
    ensures err.Some? ==> (err.value.NoneOf? || err.value.ManyOf?) && FirstBadGroup(schema, p, err.value)
  {
    for g := 0 to |schema.oneOf|
      invariant forall j :: 0 <= j < g ==> CountProvided(p, schema.oneOf[j]) == 1
    {
      var group := schema.oneOf[g];
      var provided: seq<string> := [];
      for i := 0 to |group|
        invariant |provided| == CountProvided(p, group[..i])
      {
        assert group[..i + 1][..i] == group[..i];
        if Provided(At(p, group[i])) {
          provided := provided + [group[i]];
        }
      }
      assert group[..|group|] == group;
      if |provided| == 0 {
        return Some(NoneOf(group));
      }
      if |provided| > 1 {
        return Some(ManyOf(group));
      }
    }
    err := None;
  }

  /** `ValidateParams`: nil exactly when all constraints hold of the parameters passed in;
      and then the rewritten parameters are a function of schema and parameters, whatever
      order the property map is walked in. */
  method ValidateParams(schema: Schema, bag: ParamBag, order: seq<string>) returns (err: Option<Error>)
    requires forall name :: name in order <==> name in schema.enums
    modifies bag
    ensures err.None? <==> Fulfils(schema, old(bag.m))
    ensures err.None? <==> Valid(schema, old(bag.m))
    ensures err.None? ==> bag.m == Rewritten(schema, old(bag.m))
    ensures err.Some? ==> ErrorFits(schema, old(bag.m), err.value)
    ensures PartlyRewritten(schema, old(bag.m), bag.m)
  {
    ghost var p := bag.m;
    ValidMeans(schema, p);
    err := CheckRequired(schema, bag.m);
    if err.Some? {
      return;
    }
    err := CheckEnums(schema, bag, order);
    if err.Some? {
      return;
    }
    RewrittenAlike(schema, p);
    AlikeValid(schema, p, bag.m);
    assert EnumsHold(schema, p);
    err := CheckGroups(schema, bag.m);
    if err.Some? {
      SameBadGroup(schema, p, bag.m, err.value);
    }
  }
}
