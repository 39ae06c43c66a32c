/** The Golomb-Rice code of BIP 158: sorted values as differences, each difference as a
    quotient in unary and nineteen bits of remainder (src/btclight.cpp, `EncodeFilter`,
    `MatchFilter`). */
module Golomb {
  import opened Options
  import opened Powers
  import opened Regroup
  import opened Bits

  const P: nat := 19

  function Ones(q: nat): (s: seq<nat>)
    ensures |s| == q && forall i :: 0 <= i < q ==> s[i] == 1
  {
    seq(q, _ => 1)
  }

  /** One difference. */
  function Code(d: nat): (s: seq<nat>)
    ensures Below(2, s)
  {
    Ones(Over(d, Pow2(P))) + [0] + Digits(2, P, d % Pow2(P))
  }

  ghost predicate Ascending(last: nat, vs: seq<nat>)
    decreases |vs|
  {
    vs != [] ==> last <= vs[0] && Ascending(vs[0], vs[1..])
  }

  ghost function Codes(last: nat, vs: seq<nat>): (s: seq<nat>)
    requires Ascending(last, vs)
    ensures Below(2, s)
    decreases |vs|
  {
    if vs == [] then [] else Code(vs[0] - last) + Codes(vs[0], vs[1..])
  }

  /** How many ones a run of bits starts with. */
  function Leading(s: seq<nat>): (q: nat)
    ensures q <= |s|
  {
    if s == [] || s[0] == 0 then 0 else 1 + Leading(s[1..])
  }

  datatype Delta = Delta(value: nat, rest: seq<nat>)

  function ParseDelta(s: seq<nat>, limit: nat): Option<Delta> {
    var q := Leading(s);
    if q > limit || |s| < q + 1 + P then None
    else Some(Delta(Times(q, Pow2(P)) + Val(2, s[q + 1..q + 1 + P]), s[q + 1 + P..]))
  }

  datatype Parsed = Parsed(values: seq<nat>, rest: seq<nat>)

  /** `n` differences, summed up from `value`; every sum stays below the range. */
  function Parse(s: seq<nat>, n: nat, range: nat, value: nat): Option<Parsed>
    decreases n
  {
    if n == 0 then Some(Parsed([], s))
    else
      var d := ParseDelta(s, Over(range, Pow2(P)));
      if d.None? || d.value.value >= range || value >= range - d.value.value then None
      else
        var v := value + d.value.value;
        var r := Parse(d.value.rest, n - 1, range, v);
        if r.None? then None else Some(Parsed([v] + r.value.values, r.value.rest))
  }

  // ---- one difference, there and back --------------------------------------------------------

  lemma {:induction false} LeadingOnes(q: nat, t: seq<nat>)
    requires t != [] && t[0] == 0
    ensures Leading(Ones(q) + t) == q
    decreases q
  {
    var s := Ones(q) + t;
    if q == 0 {
      assert s == t;
    } else {
      assert s[1..] == Ones(q - 1) + t;
      LeadingOnes(q - 1, t);
    }
  }

  lemma {:induction false} OnesLeading(s: seq<nat>)
    requires Below(2, s)
    ensures s[..Leading(s)] == Ones(Leading(s)) && (Leading(s) < |s| ==> s[Leading(s)] == 0)
    decreases |s|
  {
    if s != [] && s[0] != 0 {
      OnesLeading(s[1..]);
      var q := Leading(s);
      assert s[..q] == [s[0]] + s[1..][..q - 1];
    }
  }

  lemma RemainderBits(r: nat)
    requires r < Pow2(P)
    ensures Val(2, Digits(2, P, r)) == r
  {
    hide Pow2, Val, Digits;
    Two();
    assert 1 * P == P;
    ValOfDigits(1, P, r);
  }

  lemma BitsRemainder(s: seq<nat>)
    requires Below(2, s) && |s| == P
    ensures Val(2, s) < Pow2(P) && Digits(2, P, Val(2, s)) == s
  {
    hide Pow2, Val, Digits;
    Two();
    assert 1 * P == P;
    ValBound(1, s);
    DigitsOfVal(2, s);
  }

  lemma ParsesCode(d: nat, t: seq<nat>, limit: nat)
    requires Over(d, Pow2(P)) <= limit
    ensures ParseDelta(Code(d) + t, limit) == Some(Delta(d, t))
  {
    hide Pow2, Val, Digits, Times, Over;
    var q, r := Over(d, Pow2(P)), d % Pow2(P);
    DivBounds(d, Pow2(P));
    var s, bits := Code(d) + t, Digits(2, P, r);
    assert s == Ones(q) + ([0] + bits + t);
    LeadingOnes(q, [0] + bits + t);
    RemainderBits(r);
    assert s[q + 1..q + 1 + P] == bits && s[q + 1 + P..] == t;
  }

  lemma CodeParses(s: seq<nat>, limit: nat)
    requires Below(2, s) && ParseDelta(s, limit).Some?
    ensures var d := ParseDelta(s, limit).value; s == Code(d.value) + d.rest && Below(2, d.rest)
  {
    hide Pow2, Val, Digits, Times, Over, Leading;
    var q := Leading(s);
    var d := ParseDelta(s, limit).value;
    OnesLeading(s);
    var bits := s[q + 1..q + 1 + P];
    BitsRemainder(bits);
    OverPush(q, Pow2(P), Val(2, bits));
    assert s == s[..q] + [s[q]] + bits + d.rest;
  }

  // ---- all of them ---------------------------------------------------------------------------------

  ghost predicate InRange(vs: seq<nat>, range: nat) {
    forall i :: 0 <= i < |vs| ==> vs[i] < range
  }

  /** Encoding, then parsing, gives the values back and stops where the code ends. */
  lemma {:induction false} ParsesCodes(last: nat, vs: seq<nat>, t: seq<nat>, range: nat)
    requires Ascending(last, vs) && InRange(vs, range)
    ensures Parse(Codes(last, vs) + t, |vs|, range, last) == Some(Parsed(vs, t))
    decreases |vs|
  {
    hide Pow2, ParseDelta, Code, Over, Parse, Below;
    if vs == [] {
      assert Codes(last, vs) + t == t;
      ParseNone(t, range, last);
    } else {
      var d, more := vs[0] - last, Codes(vs[0], vs[1..]) + t;
      var s := Codes(last, vs) + t;
      QuotientFits(d, range);
      ParsesCode(d, more, Over(range, Pow2(P)));
      assert s == Code(d) + more;
      assert InRange(vs[1..], range);
      ParsesCodes(vs[0], vs[1..], t, range);
      ParseStep(s, |vs|, range, last, Delta(d, more), Parsed(vs[1..], t));
      assert vs == [vs[0]] + vs[1..];
    }
  }

  lemma ParseNone(s: seq<nat>, range: nat, value: nat)
    ensures Parse(s, 0, range, value) == Some(Parsed([], s))
  {
  }

  lemma ParseStep(s: seq<nat>, n: nat, range: nat, value: nat, d: Delta, r: Parsed)
    requires n > 0 && ParseDelta(s, Over(range, Pow2(P))) == Some(d) && value + d.value < range
    requires Parse(d.rest, n - 1, range, value + d.value) == Some(r)
    ensures Parse(s, n, range, value) == Some(Parsed([value + d.value] + r.values, r.rest))
  {
    hide Pow2, ParseDelta, Over;
  }

  lemma QuotientFits(d: nat, range: nat)
    requires d < range
    ensures Over(d, Pow2(P)) <= Over(range, Pow2(P))
  {
    hide Pow2;
    DivMono(d, range, Pow2(P));
  }

  /** Whatever is parsed is an ascending list below the range, and the bits read are its
      code. */
  lemma {:induction false} CodesParse(s: seq<nat>, n: nat, range: nat, value: nat)
    requires Below(2, s) && Parse(s, n, range, value).Some?
    ensures
      var p := Parse(s, n, range, value).value;
      && |p.values| == n && Ascending(value, p.values) && InRange(p.values, range)
      && s == Codes(value, p.values) + p.rest
    decreases n
  {
    hide Pow2, ParseDelta, Code, Over, Below;
    if n > 0 {
      var d := ParseDelta(s, Over(range, Pow2(P))).value;
      CodeParses(s, Over(range, Pow2(P)));
      var v := value + d.value;
      CodesParse(d.rest, n - 1, range, v);
      var p := Parse(s, n, range, value).value;
      assert p.values[1..] == Parse(d.rest, n - 1, range, v).value.values;
    }
  }

  // ---- one value at a time --------------------------------------------------------------------------

  function LastOf(last: nat, vs: seq<nat>): nat { if vs == [] then last else vs[|vs| - 1] }

  lemma {:induction false} CodesPush(last: nat, vs: seq<nat>, v: nat)
    requires Ascending(last, vs) && LastOf(last, vs) <= v
    ensures Ascending(last, vs + [v])
    ensures Codes(last, vs + [v]) == Codes(last, vs) + Code(v - LastOf(last, vs))
    decreases |vs|
  {
    hide Code, Below;
    if vs == [] {
      assert vs + [v] == [v] && [v][1..] == [];
    } else {
      CodesPush(vs[0], vs[1..], v);
      assert (vs + [v])[1..] == vs[1..] + [v] && (vs + [v])[0] == vs[0];
    }
  }

  /** Values already read, in front of what is still to be parsed. */
  function Prepend(vs: seq<nat>, r: Option<Parsed>): Option<Parsed> {
    if r.None? then None else Some(Parsed(vs + r.value.values, r.value.rest))
  }

  lemma PrependStep(vs: seq<nat>, s: seq<nat>, n: nat, range: nat, value: nat)
    requires n > 0
    ensures
      var d := ParseDelta(s, Over(range, Pow2(P)));
      Prepend(vs, Parse(s, n, range, value)) ==
      if d.None? || d.value.value >= range || value >= range - d.value.value then None
      else Prepend(vs + [value + d.value.value], Parse(d.value.rest, n - 1, range, value + d.value.value))
  {
    hide Pow2, ParseDelta, Over;
    var d := ParseDelta(s, Over(range, Pow2(P)));
    if !(d.None? || d.value.value >= range || value >= range - d.value.value) {
      var v := value + d.value.value;
      var r := Parse(d.value.rest, n - 1, range, v);
      if r.Some? {
        assert vs + ([v] + r.value.values) == (vs + [v]) + r.value.values;
      }
    }
  }
}
