/** The string operations of Go's standard library the model relies on.
    A Go string is a sequence of bytes; it is modelled as a `string` whose
    characters are below 256 (`IsBytes`). */
module Text {
  import opened Common

  ghost predicate IsBytes(s: string) {
    forall i :: 0 <= i < |s| ==> s[i] as int < 256
  }

  // ---------- searching ----------

  /** `strings.IndexByte`: position of the first `c`, or -1. */
  function IndexOf(s: string, c: char): (i: int)
    ensures -1 <= i < |s|
    ensures i >= 0 ==> s[i] == c && forall k :: 0 <= k < i ==> s[k] != c
    ensures i == -1 ==> c !in s
  {
    if s == "" then -1
    else if s[0] == c then 0
    else
      var i := IndexOf(s[1..], c);
      assert s == [s[0]] + s[1..];
      if i < 0 then -1 else i + 1
  }

  /** `strings.LastIndexByte`: position of the last `c`, or -1. */
  function LastIndexOf(s: string, c: char): (i: int)
    ensures -1 <= i < |s|
    ensures i >= 0 ==> s[i] == c && forall k :: i < k < |s| ==> s[k] != c
    ensures i == -1 ==> c !in s
  {
    if s == "" then -1
    else
      var n := |s| - 1;
      assert s == s[..n] + [s[n]];
      if s[n] == c then n
      else
        var i := LastIndexOf(s[..n], c);
        i
  }

  /** Text around one occurrence of a separator. */
  datatype Cut = Cut(before: string, found: bool, after: string)

  function Glue(k: Cut, c: char): string {
    if k.found then k.before + [c] + k.after else k.before
  }

  function CutFirst(s: string, c: char): (k: Cut)
    ensures s == Glue(k, c) && c !in k.before
    ensures !k.found ==> k.after == ""
  {
    var i := IndexOf(s, c);
    if i < 0 then Cut(s, false, "")
    else
      assert s == s[..i] + [c] + s[i + 1..];
      Cut(s[..i], true, s[i + 1..])
  }

  function CutLast(s: string, c: char): (k: Cut)
    ensures s == Glue(k, c) && c !in k.after
    ensures !k.found ==> k.after == "" && c !in s
  {
    var i := LastIndexOf(s, c);
    if i < 0 then Cut(s, false, "")
    else
      assert s == s[..i] + [c] + s[i + 1..];
      Cut(s[..i], true, s[i + 1..])
  }

  predicate HasPrefix(s: string, p: string) {
    p <= s
  }

  /** `strings.TrimPrefix`. */
  function TrimPrefix(s: string, p: string): (r: string)
    ensures HasPrefix(s, p) ==> s == p + r
    ensures !HasPrefix(s, p) ==> r == s
  {
    if p <= s then s[|p|..] else s
  }

  /** `strings.Index` with a pattern: first position where `p` starts, or -1. */
  function IndexOfText(s: string, p: string): (i: int)
    ensures -1 <= i <= |s|
    ensures i >= 0 ==> p <= s[i..]
  {
    if p <= s then
      assert s[0..] == s;
      0
    else if s == "" then -1
    else
      var i := IndexOfText(s[1..], p);
      assert i >= 0 ==> s[i + 1..] == s[1..][i..];
      if i < 0 then -1 else i + 1
  }

  lemma {:induction false} IndexOfTextIsFirst(s: string, p: string, j: nat)
    requires j <= |s| && p <= s[j..]
    ensures 0 <= IndexOfText(s, p) <= j
  {
    assert s[0..] == s;
    if !(p <= s) {
      assert s[j..] == s[1..][j - 1..];
      IndexOfTextIsFirst(s[1..], p, j - 1);
    }
  }

  // ---------- white space ----------

  /** The ASCII white space `strings.TrimSpace` removes. */
  predicate IsSpace(c: char) {
    c == ' ' || 9 <= c as int <= 13
  }

  function TrimLeft(s: string): (r: string)
    ensures r == "" || !IsSpace(r[0])
  {
    if s != "" && IsSpace(s[0]) then TrimLeft(s[1..]) else s
  }

  function TrimRight(s: string): (r: string)
    ensures r <= s
    ensures r == "" || !IsSpace(r[|r| - 1])
  {
    if s != "" && IsSpace(s[|s| - 1]) then TrimRight(s[..|s| - 1]) else s
  }

  /** `strings.TrimSpace`. */
  function Trim(s: string): string {
    TrimRight(TrimLeft(s))
  }

  predicate Blank(s: string) {
    Trim(s) == ""
  }

  predicate EndsInSpace(s: string) {
    s != "" && IsSpace(s[|s| - 1])
  }

  ghost predicate NoOuterSpace(s: string) {
    s != "" ==> !IsSpace(s[0]) && !IsSpace(s[|s| - 1])
  }

  lemma {:induction false} TrimOfTrimmed(s: string)
    requires NoOuterSpace(s)
    ensures Trim(s) == s
  {
  }

  lemma {:induction false} TrimLeftAppend(s: string, t: string)
    requires t != "" && !IsSpace(t[0])
    ensures TrimLeft(s + t) == TrimLeft(s) + t
  {
    if s != "" && IsSpace(s[0]) {
      TrimLeftAppend(s[1..], t);
      assert (s + t)[1..] == s[1..] + t;
    } else if s == "" {
      assert s + t == t;
    }
  }

  lemma {:induction false} TrimRightAppend(s: string, t: string)
    requires s != "" && !IsSpace(s[|s| - 1])
    ensures TrimRight(s + t) == s + TrimRight(t)
  {
    if t == "" {
      assert s + t == s;
    } else if IsSpace(t[|t| - 1]) {
      TrimRightAppend(s, t[..|t| - 1]);
      assert (s + t)[..|s + t| - 1] == s + t[..|t| - 1];
    }
  }

  /** Trimming leaves no outer space. */
  lemma {:induction false} TrimmedEnds(s: string)
    ensures NoOuterSpace(Trim(s))
  {
    var l := TrimLeft(s);
    var r := TrimRight(l);
    if r != "" {
      assert r[0] == l[0];
    }
  }

  // ---------- case ----------

  function LowerChar(c: char): char {
    if 'A' <= c <= 'Z' then (c as int + 32) as char else c
  }

  /** `strings.ToLower` on ASCII letters. */
  function ToLower(s: string): (r: string)
    ensures |r| == |s|
  {
    seq(|s|, i requires 0 <= i < |s| => LowerChar(s[i]))
  }

  // ---------- splitting ----------

  /** `strings.Split` on a one-byte separator. */
  function Split(s: string, c: char): (parts: seq<string>)
    ensures |parts| >= 1
    decreases |s|
  {
    var i := IndexOf(s, c);
    if i < 0 then [s] else [s[..i]] + Split(s[i + 1..], c)
  }

  function Join(parts: seq<string>, c: char): string {
    if parts == [] then ""
    else if |parts| == 1 then parts[0]
    else parts[0] + [c] + Join(parts[1..], c)
  }

  lemma {:induction false} IndexOfAppend(s: string, c: char, t: string)
    requires c !in s
    ensures IndexOf(s + [c] + t, c) == |s|
  {
    var w := s + [c] + t;
    var i := IndexOf(w, c);
    assert w[|s|] == c;
    assert forall j :: 0 <= j < |s| ==> w[j] == s[j];
  }

  lemma {:induction false} LastIndexOfAt(s: string, c: char, k: nat)
    requires k < |s| && s[k] == c
    requires forall j :: k < j < |s| ==> s[j] != c
    ensures LastIndexOf(s, c) == k
  {
  }

  lemma {:induction false} AppendTail(s: string, c: char, t: string, j: int)
    requires c !in t && |s| < j < |s + [c] + t|
    ensures (s + [c] + t)[j] != c
  {
    var w := s + [c] + t;
    assert w[j] == t[j - |s| - 1];
  }

  lemma {:induction false} LastIndexOfAppend(s: string, c: char, t: string)
    requires c !in t
    ensures LastIndexOf(s + [c] + t, c) == |s|
  {
    var w := s + [c] + t;
    forall j | |s| < j < |w|
      ensures w[j] != c
    {
      AppendTail(s, c, t, j);
    }
    assert w[|s|] == c;
    LastIndexOfAt(w, c, |s|);
  }

  lemma {:induction false} CutFirstGlue(k: Cut, c: char)
    requires c !in k.before
    requires !k.found ==> k.after == ""
    ensures CutFirst(Glue(k, c), c) == k
  {
    if k.found {
      IndexOfAppend(k.before, c, k.after);
      var w := Glue(k, c);
      assert w[..|k.before|] == k.before && w[|k.before| + 1..] == k.after;
    }
  }

  lemma {:induction false} CutLastGlue(k: Cut, c: char)
    requires c !in k.after
    requires !k.found ==> k.after == "" && c !in k.before
    ensures CutLast(Glue(k, c), c) == k
  {
    if k.found {
      LastIndexOfAppend(k.before, c, k.after);
      var w := Glue(k, c);
      assert w[..|k.before|] == k.before && w[|k.before| + 1..] == k.after;
    }
  }

  /** Splitting undoes joining when no part holds the separator. */
  lemma {:induction false} SplitJoin(parts: seq<string>, c: char)
    requires parts != []
    requires forall i :: 0 <= i < |parts| ==> c !in parts[i]
    ensures Split(Join(parts, c), c) == parts
  {
    if |parts| == 1 {
      assert parts == [parts[0]];
      assert c !in Join(parts, c);
    } else {
      var rest := Join(parts[1..], c);
      IndexOfAppend(parts[0], c, rest);
      var w := parts[0] + [c] + rest;
      assert w[..|parts[0]|] == parts[0];
      assert w[|parts[0]| + 1..] == rest;
      SplitJoin(parts[1..], c);
      assert parts == [parts[0]] + parts[1..];
    }
  }

  // ---------- decimal numbers ----------

  function Digit(d: nat): (c: char)
    requires d < 10
    ensures '0' <= c <= '9'
  {
    (d + 48) as char
  }

  predicate IsDigit(c: char) {
    '0' <= c <= '9'
  }

  function DigitValue(c: char): (d: nat)
    requires IsDigit(c)
    ensures d < 10
  {
    c as int - 48
  }

  /** A number printed in base ten. */
  function Decimal(n: nat): (s: string)
    ensures s != "" && forall i :: 0 <= i < |s| ==> IsDigit(s[i])
  {
    if n < 10 then [Digit(n)] else Decimal(n / 10) + [Digit(n % 10)]
  }

  /** Value of a string of digits. */
  function DigitsValue(s: string): nat
    requires forall i :: 0 <= i < |s| ==> IsDigit(s[i])
  {
    if s == "" then 0 else 10 * DigitsValue(s[..|s| - 1]) + DigitValue(s[|s| - 1])
  }

  lemma {:induction false} DecimalValue(n: nat)
    ensures DigitsValue(Decimal(n)) == n
  {
    var s := Decimal(n);
    if n < 10 {
      assert s[..0] == "";
    } else {
      DecimalValue(n / 10);
      assert s[..|s| - 1] == Decimal(n / 10);
    }
  }

  lemma {:induction false} DecimalInjective(m: nat, n: nat)
    requires Decimal(m) == Decimal(n)
    ensures m == n
  {
    DecimalValue(m);
    DecimalValue(n);
  }

  const MAX_INT: int := 0x7FFF_FFFF_FFFF_FFFF

  /** `strconv.Atoi`: optional sign, digits only, 64-bit range. */
  function Atoi(s: string): Option<int> {
    var neg := s != "" && s[0] == '-';
    var body := if s != "" && (s[0] == '-' || s[0] == '+') then s[1..] else s;
    if body == "" || exists i :: 0 <= i < |body| && !IsDigit(body[i]) then None
    else
      var d: int := DigitsValue(body);
      var v := if neg then -d else d;
      if -MAX_INT - 1 <= v <= MAX_INT then Some(v) else None
  }

  lemma {:induction false} AtoiDecimal(n: nat)
    requires n <= MAX_INT
    ensures Atoi(Decimal(n)) == Some(n)
  {
    DecimalValue(n);
    assert IsDigit(Decimal(n)[0]);
  }
}
