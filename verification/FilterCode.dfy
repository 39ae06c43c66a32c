/** `EncodeFilter` and `MatchFilter` (src/btclight.cpp) as they run, bit by bit, and what a
    match means. */
module FilterCode {
  import opened Options
  import opened Powers
  import opened Regroup
  import opened Bits
  import opened Golomb
  import opened Filter
  import opened Sorting

  type U64 = x: int | 0 <= x < 0x1_0000_0000_0000_0000
  type Script = seq<nat>

  const OP_RETURN := 0x6a

  // ---- hashes in a range --------------------------------------------------------------------------

  function Mapped(hash: U64, range: nat): nat { Over(Times(hash, range), TWO_64) }

  lemma MappedBelow(hash: U64, range: nat)
    requires range > 0
    ensures Mapped(hash, range) < range
  {
    MulStrict(hash, TWO_64, range);
    DivRange(Times(hash, range), TWO_64, 0, range);
  }

  /** The scripts that go into a filter: neither empty nor data only, each once. */
  function Elements(scripts: seq<Script>): set<Script> {
    set s | s in scripts && s != [] && s[0] != OP_RETURN
  }

  /** Their values, with their multiplicities. */
  ghost function Values(sip: Script -> U64, range: nat, u: set<Script>): multiset<nat> {
    if u == {} then multiset{} else var s :| s in u; multiset{Mapped(sip(s), range)} + Values(sip, range, u - {s})
  }

  lemma {:induction false} ValuesAt(sip: Script -> U64, range: nat, u: set<Script>, s: Script)
    requires s in u
    ensures Values(sip, range, u) == multiset{Mapped(sip(s), range)} + Values(sip, range, u - {s})
    decreases |u|
  {
    var t :| t in u && Values(sip, range, u) == multiset{Mapped(sip(t), range)} + Values(sip, range, u - {t});
    if t != s {
      ValuesAt(sip, range, u - {t}, s);
      ValuesAt(sip, range, u - {s}, t);
      assert u - {t} - {s} == u - {s} - {t};
    }
  }

  lemma {:induction false} ValuesMembers(sip: Script -> U64, range: nat, u: set<Script>)
    ensures |Values(sip, range, u)| == |u|
    ensures forall v :: v in Values(sip, range, u) <==> exists s :: s in u && Mapped(sip(s), range) == v
    decreases |u|
  {
    if u != {} {
      var s :| s in u && Values(sip, range, u) == multiset{Mapped(sip(s), range)} + Values(sip, range, u - {s});
      ValuesMembers(sip, range, u - {s});
      assert u == (u - {s}) + {s};
    }
  }

  lemma {:induction false} SortedAscending(last: nat, vs: seq<nat>)
    requires Sorted(vs) && (vs != [] ==> last <= vs[0])
    ensures Ascending(last, vs)
    decreases |vs|
  {
    if vs != [] {
      SortedAscending(vs[0], vs[1..]);
    }
  }

  // ---- the writer ------------------------------------------------------------------------------------

  /** `b |= 1 << k`. */
  function SetBit(b: nat, k: nat): nat {
    if Over(b, Pow2(k)) % 2 == 1 then b else b + Pow2(k)
  }

  lemma FreeBit(s: seq<nat>)
    requires Below(2, s) && |s| % 8 != 0
    ensures SetBit(Pack(s)[|s| / 8], 7 - |s| % 8) == Pack(s)[|s| / 8] + Pow2(7 - |s| % 8)
  {
    hide Unpack, Over, Pow2, Pack, Below;
    UnpackPack(s);
    var f, n := Pack(s), |s|;
    assert n < 8 * |f|;
    ReadsBit(f, n);
    assert (s + Zeros(8 * |f| - n))[n] == 0;
  }

  /** One bit at the end of what was written after `head`. */
  method Bit(out: seq<nat>, pos: nat, v: nat, ghost head: seq<nat>, ghost s: seq<nat>) returns (r: seq<nat>)
    requires out == head + Pack(s) && pos == 8 * |head| + |s| && Below(2, s) && v < 2
    ensures r == head + Pack(s + [v]) && Below(2, s + [v])
  {
    hide Pack, Unpack, Over;
    PackPush(s, v);
    r := out;
    if pos / 8 == |r| {
      r := r + [0];
      if v == 1 {
        FirstBit();
      }
    } else {
      FreeBit(s);
      assert pos / 8 == |head| + |s| / 8 && pos % 8 == |s| % 8;
    }
    if v == 1 {
      r := r[pos / 8 := SetBit(r[pos / 8], 7 - pos % 8)];
    }
  }

  lemma FirstBit()
    ensures SetBit(0, 7) == 128
  {
    assert Pow2(7) == 128;
  }

  lemma EvenMod(y: nat, b: nat)
    requires b > 0
    ensures 2 * b > 0 && y % (2 * b) % 2 == y % 2
  {
    ModSplit(y, 2, b);
    DivExact(y / 2 % b, 2, y % 2);
  }

  lemma LowArithmetic(d: nat, a: nat, c: nat)
    requires a > 0 && c > 0
    ensures a * c > 0 && Over(d % (a * c), a) == Over(d, a) % c
  {
    ModSplit(d, a, c);
    DivBounds(d, a);
    DivExact(d / a % c, a, d % a);
  }

  lemma LowDigit(d: nat, k: nat)
    requires k < P
    ensures Over(d % Pow2(P), Pow2(k)) % 2 == Over(d, Pow2(k)) % 2
  {
    hide Pow2, Over;
    var a, b := Pow2(k), Pow2(P - 1 - k);
    Pow2Add(k, P - k);
    Pow2Add(1, P - 1 - k);
    Two();
    LowArithmetic(d, a, 2 * b);
    EvenMod(Over(d, a), b);
  }

  method PutOnes(out: seq<nat>, pos: nat, n: nat, ghost head: seq<nat>, ghost s: seq<nat>) returns (r: seq<nat>)
    requires out == head + Pack(s) && pos == 8 * |head| + |s| && Below(2, s)
    ensures r == head + Pack(s + Ones(n)) && Below(2, s + Ones(n))
  {
    hide Pack, Below;
    r := out;
    var q := n;
    assert s + Ones(0) == s;
    while q > 0
      invariant 0 <= q <= n && r == head + Pack(s + Ones(n - q)) && Below(2, s + Ones(n - q))
    {
      assert s + Ones(n - q) + [1] == s + Ones(n - (q - 1));
      r := Bit(r, pos + (n - q), 1, head, s + Ones(n - q));
      q := q - 1;
    }
  }

  method PutLow(out: seq<nat>, pos: nat, d: nat, ghost head: seq<nat>, ghost s: seq<nat>) returns (r: seq<nat>)
    requires out == head + Pack(s) && pos == 8 * |head| + |s| && Below(2, s)
    ensures r == head + Pack(s + Digits(2, P, d % Pow2(P))) && Below(2, s + Digits(2, P, d % Pow2(P)))
  {
    hide Pack, Over, Pow2, Below, Digits;
    r := out;
    ghost var bits := Digits(2, P, d % Pow2(P));
    assert s + bits[..0] == s;
    for j := 0 to P
      invariant r == head + Pack(s + bits[..j]) && Below(2, s + bits[..j])
    {
      BinaryAt(P, d % Pow2(P), j);
      LowDigit(d, P - 1 - j);
      var v := Over(d, Pow2(P - 1 - j)) % 2;
      assert s + bits[..j] + [v] == s + bits[..j + 1];
      r := Bit(r, pos + j, v, head, s + bits[..j]);
    }
    assert bits[..P] == bits;
  }

  /** One difference: its quotient in ones, a zero, the remainder from the top bit down. */
  method PutCode(out: seq<nat>, pos: nat, d: nat, ghost head: seq<nat>, ghost s: seq<nat>)
    returns (r: seq<nat>, end: nat)
    requires out == head + Pack(s) && pos == 8 * |head| + |s| && Below(2, s)
    ensures r == head + Pack(s + Code(d)) && Below(2, s + Code(d)) && end == 8 * |head| + |s + Code(d)|
  {
    hide Pack, Over, Pow2, Below, Digits;
    var q := Over(d, Pow2(P));
    r := PutOnes(out, pos, q, head, s);
    ghost var w := s + Ones(q);
    r := Bit(r, pos + q, 0, head, w);
    r := PutLow(r, pos + q + 1, d, head, w + [0]);
    end := pos + q + 1 + P;
    assert w + [0] + Digits(2, P, d % Pow2(P)) == s + Code(d);
  }

  method WriteValues(vs: seq<nat>) returns (f: seq<nat>)
    requires Ascending(0, vs) && |vs| < TWO_64
    ensures f == EncodeValues(vs)
  {
    hide Pack, Below, Compact, Ascending, Codes, Code;
    f := Compact(|vs|);
    ghost var head := f;
    var pos, last: nat := 8 * |f|, 0;
    NothingWritten(head, vs);
    for i := 0 to |vs|
      invariant Ascending(0, vs[..i]) && last == LastOf(0, vs[..i])
      invariant f == head + Pack(Codes(0, vs[..i])) && pos == 8 * |head| + |Codes(0, vs[..i])|
      invariant Below(2, Codes(0, vs[..i]))
    {
      InOrder(0, vs, i);
      CodesPush(0, vs[..i], vs[i]);
      assert vs[..i + 1] == vs[..i] + [vs[i]];
      f, pos := PutCode(f, pos, vs[i] - last, head, Codes(0, vs[..i]));
      last := vs[i];
    }
    assert vs[..|vs|] == vs;
  }

  lemma NothingWritten(head: seq<nat>, vs: seq<nat>)
    ensures Ascending(0, vs[..0]) && Codes(0, vs[..0]) == [] && head == head + Pack([]) && Below(2, [])
  {
  }

  lemma {:induction false} InOrder(last: nat, vs: seq<nat>, i: nat)
    requires Ascending(last, vs) && i < |vs|
    ensures LastOf(last, vs[..i]) <= vs[i]
    decreases |vs|
  {
    if i > 0 {
      InOrder(vs[0], vs[1..], i - 1);
      assert vs[1..][..i - 1] == vs[1..i];
    }
  }

  ghost predicate IsFilterOf(sip: Script -> U64, u: set<Script>, f: seq<nat>) {
    exists vs: seq<nat> ::
      && Ascending(0, vs) && |vs| == |u| < TWO_64
      && multiset(vs) == Values(sip, Range(|u|), u) && f == EncodeValues(vs)
  }

  /** The filter of a block's scripts.  More than 2^64 of them do not exist. */
  method EncodeFilter(sip: Script -> U64, scripts: seq<Script>) returns (f: seq<nat>)
    requires |scripts| < TWO_64
    ensures IsFilterOf(sip, Elements(scripts), f)
  {
    hide Values, Ascending, Sorted, EncodeValues;
    var unique := Collect(scripts);
    ElementsFew(scripts);
    var values := MapAll(sip, Range(|unique|), unique);
    var sorted := SortNats(values);
    SortedAscending(0, sorted);
    f := WriteValues(sorted);
  }

  lemma NoValues(sip: Script -> U64, range: nat)
    ensures Values(sip, range, {}) == multiset{}
  {
  }

  method MapAll(sip: Script -> U64, range: nat, u: set<Script>) returns (values: seq<nat>)
    ensures multiset(values) == Values(sip, range, u) && |values| == |u|
  {
    hide Mapped, Values;
    values := [];
    var todo := u;
    NoValues(sip, range);
    while todo != {}
      invariant todo <= u && |values| + |todo| == |u|
      invariant multiset(values) + Values(sip, range, todo) == Values(sip, range, u)
      decreases |todo|
    {
      var s :| s in todo;
      var x := Mapped(sip(s), range);
      ValuesAt(sip, range, todo, s);
      assert multiset(values + [x]) == multiset(values) + multiset{x};
      values, todo := values + [x], todo - {s};
    }
  }

  method SortNats(values: seq<nat>) returns (r: seq<nat>)
    ensures Sorted(r) && multiset(r) == multiset(values) && |r| == |values|
  {
    hide Sort, Sorted;
    SortCorrect(values);
    var t := Sort(values);
    forall i | 0 <= i < |t| ensures t[i] >= 0 {
      assert t[i] in multiset(t);
      assert t[i] in multiset(values);
    }
    r := t;
  }

  method Collect(scripts: seq<Script>) returns (u: set<Script>)
    ensures u == Elements(scripts)
  {
    u := {};
    for i := 0 to |scripts|
      invariant u == Elements(scripts[..i])
    {
      if scripts[i] != [] && scripts[i][0] != OP_RETURN {
        u := u + {scripts[i]};
      }
      assert scripts[..i + 1] == scripts[..i] + [scripts[i]];
    }
    assert scripts[..|scripts|] == scripts;
  }

  lemma {:induction false} ElementsFew(scripts: seq<Script>)
    ensures |Elements(scripts)| <= |scripts|
    decreases |scripts|
  {
    if scripts != [] {
      var k := |scripts| - 1;
      ElementsFew(scripts[..k]);
      assert scripts == scripts[..k] + [scripts[k]];
      assert Elements(scripts) == Elements(scripts[..k]) || Elements(scripts) == Elements(scripts[..k]) + {scripts[k]};
    }
  }

  // ---- the reader -----------------------------------------------------------------------------------

  datatype Read = Read(value: nat, pos: nat)

  /** The ones from `start` on, up to one more than `limit`.  `None` is the exception the
      code throws. */
  method ReadQuotient(f: seq<nat>, start: nat, limit: nat) returns (r: Option<Read>)
    requires start <= 8 * |f|
    ensures
      var s := Unpack(f)[start..];
      var q := Leading(s);
      r == if q > limit || q == |s| then None else Some(Read(q, start + q + 1))
  {
    hide Unpack, Over;
    var q, pos := 0, start;
    ghost var u := Unpack(f);
    while true
      invariant 0 <= q <= limit && pos == start + q <= 8 * |f|
      invariant Leading(u[start..]) == q + Leading(u[pos..])
      decreases limit - q
    {
      assert u[pos..] != [] ==> u[pos..][1..] == u[pos + 1..] && u[pos..][0] == u[pos];
      if pos >= 8 * |f| {
        return None;
      }
      ReadsBit(f, pos);
      var bit := BitAt(f, pos);
      pos := pos + 1;
      if bit == 0 {
        return Some(Read(q, pos));
      }
      q := q + 1;
      if q > limit {
        return None;
      }
    }
  }

  method ReadRemainder(f: seq<nat>, start: nat, q: nat) returns (r: Option<Read>)
    requires start <= 8 * |f|
    ensures
      r == if 8 * |f| - start < P then None
           else Some(Read(Times(q, Pow2(P)) + Val(2, Unpack(f)[start..start + P]), start + P))
  {
    hide Unpack, Over, Times, Val, Pow2;
    var delta: nat := Times(q, Pow2(P));
    ghost var u := Unpack(f);
    NoBits(u[start..start]);
    for j := 0 to P
      invariant start + j <= 8 * |f|
      invariant delta == Times(q, Pow2(P)) + Times(Val(2, u[start..start + j]), Pow2(P - j))
    {
      if start + j >= 8 * |f| {
        return None;
      }
      ReadsBit(f, start + j);
      var bit := BitAt(f, start + j);
      MoreBits(u, start, j, bit);
      delta := delta + Times(bit, Pow2(P - 1 - j));
    }
    LastBits(Val(2, u[start..start + P]));
    return Some(Read(delta, start + P));
  }

  lemma NoBits(e: seq<nat>)
    requires e == []
    ensures Times(Val(2, e), Pow2(P)) == 0
  {
    hide Pow2;
    assert 0 * Pow2(P) == 0;
  }

  lemma MoreBits(u: seq<nat>, start: nat, j: nat, bit: nat)
    requires start + j < |u| && j < P && bit == u[start + j]
    ensures Times(Val(2, u[start..start + j + 1]), Pow2(P - j - 1)) ==
            Times(Val(2, u[start..start + j]), Pow2(P - j)) + Times(bit, Pow2(P - 1 - j))
  {
    hide Times, Val;
    var s := u[start..start + j];
    assert u[start..start + j + 1] == s + [bit];
    ValPush(2, s, bit);
    PushArithmetic(Val(2, s), bit, Pow2(P - 1 - j));
  }

  lemma LastBits(v: nat)
    ensures Times(v, Pow2(P - P)) == v
  {
    assert Pow2(0) == 1;
  }

  method ReadDelta(f: seq<nat>, start: nat, limit: nat) returns (r: Option<Read>)
    requires start <= 8 * |f|
    ensures
      var d := ParseDelta(Unpack(f)[start..], limit);
      && r.Some? == d.Some?
      && (r.Some? ==> r.value.pos <= 8 * |f| && d.value == Delta(r.value.value, Unpack(f)[r.value.pos..]))
  {
    hide Unpack, Times, Val, Pow2, Leading;
    var quotient := ReadQuotient(f, start, limit);
    if quotient.None? {
      return None;
    }
    r := ReadRemainder(f, quotient.value.pos, quotient.value.value);
    ghost var u, s, q := Unpack(f), Unpack(f)[start..], quotient.value.value;
    if r.Some? {
      assert s[q + 1..q + 1 + P] == u[start + q + 1..start + q + 1 + P];
      assert s[q + 1 + P..] == u[start + q + 1 + P..];
    }
  }

  // ---- matching ----------------------------------------------------------------------------------------

  ghost predicate Hits(values: seq<nat>, queries: set<nat>) {
    exists i :: 0 <= i < |values| && values[i] in queries
  }

  /** The values one after the other; `pos` is where the padding starts. */
  method Scan(f: seq<nat>, start: nat, n: nat, range: nat, queries: set<nat>) returns (r: Option<Read>, hit: bool)
    requires start <= 8 * |f|
    ensures
      var p := Parse(Unpack(f)[start..], n, range, 0);
      && r.Some? == p.Some?
      && (r.Some? ==> r.value.pos <= 8 * |f| && p.value.rest == Unpack(f)[r.value.pos..])
      && (hit <==> p.Some? && Hits(p.value.values, queries))
  {
    hide Unpack, Pow2, ParseDelta, Over, Parse;
    hit := false;
    var value: nat, pos: nat := 0, start;
    ghost var u: seq<nat>, vs: seq<nat> := Unpack(f), [];
    ghost var whole := Parse(u[start..], n, range, 0);
    NothingRead(whole);
    for i := 0 to n
      invariant pos <= 8 * |f| && whole == Prepend(vs, Parse(u[pos..], n - i, range, value))
      invariant hit <==> Hits(vs, queries)
    {
      PrependStep(vs, u[pos..], n - i, range, value);
      var d := ReadDelta(f, pos, Over(range, Pow2(P)));
      if d.None? || d.value.value >= range || value >= range - d.value.value {
        return None, false;
      }
      value := value + d.value.value;
      pos := d.value.pos;
      HitsPush(vs, value, queries);
      vs := vs + [value];
      if value in queries {
        hit := true;
      }
    }
    ParseNone(u[pos..], range, value);
    assert vs + [] == vs;
    return Some(Read(value, pos)), hit;
  }

  lemma NothingRead(r: Option<Parsed>)
    ensures r == Prepend([], r)
  {
    assert r.Some? ==> [] + r.value.values == r.value.values;
  }

  lemma HitsPush(vs: seq<nat>, v: nat, queries: set<nat>)
    ensures Hits(vs + [v], queries) <==> Hits(vs, queries) || v in queries
  {
    var w := vs + [v];
    if Hits(vs, queries) {
      var i :| 0 <= i < |vs| && vs[i] in queries;
      assert w[i] in queries;
    }
    assert w[|vs|] == v;
  }

  /** `match` is left set when only the padding at the end is wrong; the filter is refused
      all the same. */
  method MatchFilter(sip: Script -> U64, f: seq<nat>, scripts: seq<Script>) returns (ok: bool, hit: bool)
    ensures ok == Decode(f).Some?
    ensures hit <==> ParseFilter(f).Some? && Hits(ParseFilter(f).value.values, Queries(sip, f, scripts))
  {
    hide Unpack, Parse, Count, Hits;
    var c := Count(f, MAX_COUNT);
    if c.None? {
      return false, false;
    }
    var n, range := c.value.value, Range(c.value.value);
    var queries := MapQueries(sip, scripts, range);
    var r;
    r, hit := Scan(f, 8 * c.value.size, n, range, queries);
    if r.None? {
      return false, hit;
    }
    var pos := r.value.pos;
    ghost var rest := Unpack(f)[pos..];
    if (pos + 7) / 8 != |f| {
      return false, hit;
    }
    while pos < 8 * |f|
      invariant r.value.pos <= pos <= 8 * |f|
      invariant forall i :: r.value.pos <= i < pos ==> Unpack(f)[i] == 0
    {
      ReadsBit(f, pos);
      if BitAt(f, pos) != 0 {
        assert rest[pos - r.value.pos] != 0;
        return false, hit;
      }
      pos := pos + 1;
    }
    return true, hit;
  }

  function Queries(sip: Script -> U64, f: seq<nat>, scripts: seq<Script>): set<nat> {
    var c := Count(f, MAX_COUNT);
    if c.None? then {} else set i | 0 <= i < |scripts| :: Mapped(sip(scripts[i]), Range(c.value.value))
  }

  method MapQueries(sip: Script -> U64, scripts: seq<Script>, range: nat) returns (q: set<nat>)
    ensures q == set i | 0 <= i < |scripts| :: Mapped(sip(scripts[i]), range)
  {
    hide Mapped;
    q := {};
    for k := 0 to |scripts|
      invariant q == set i | 0 <= i < k :: Mapped(sip(scripts[i]), range)
    {
      q := q + {Mapped(sip(scripts[k]), range)};
    }
  }

  // ---- what a match means ----------------------------------------------------------------------------------

  predicate SameValue(sip: Script -> U64, n: nat, s: Script, t: Script) {
    Mapped(sip(s), Range(n)) == Mapped(sip(t), Range(n))
  }

  /** The filter made from a block's scripts, up to a million of them, is accepted, and it
      matches exactly when some queried script has the value of some script in it. */
  lemma FilterMatches(sip: Script -> U64, u: set<Script>, f: seq<nat>, scripts: seq<Script>)
    requires IsFilterOf(sip, u, f) && |u| <= MAX_COUNT
    ensures Decode(f).Some? && ParseFilter(f).Some?
    ensures Hits(ParseFilter(f).value.values, Queries(sip, f, scripts)) <==>
            exists i, s :: 0 <= i < |scripts| && s in u && SameValue(sip, |u|, scripts[i], s)
  {
    var vs: seq<nat> :| Ascending(0, vs) && |vs| == |u| < TWO_64
              && multiset(vs) == Values(sip, Range(|u|), u) && f == EncodeValues(vs);
    var n := |u|;
    MadeWellFormed(sip, u, vs);
    FilterRoundTrip(vs);
    CountOf(vs);
    MembersOf(sip, u, vs);
    hide Mapped, Values, Ascending, EncodeValues, Parse, Count;
    var q := Queries(sip, f, scripts);
    if Hits(vs, q) {
      var k :| 0 <= k < |vs| && vs[k] in q;
      var i :| 0 <= i < |scripts| && Mapped(sip(scripts[i]), Range(n)) == vs[k];
      var s :| s in u && Mapped(sip(s), Range(n)) == vs[k];
      assert SameValue(sip, n, scripts[i], s);
    }
    if i, s :| 0 <= i < |scripts| && s in u && SameValue(sip, n, scripts[i], s) {
      var v := Mapped(sip(s), Range(n));
      assert v in vs && v in q;
    }
  }

  lemma MembersOf(sip: Script -> U64, u: set<Script>, vs: seq<nat>)
    requires multiset(vs) == Values(sip, Range(|u|), u)
    ensures forall k :: 0 <= k < |vs| ==> exists s :: s in u && Mapped(sip(s), Range(|u|)) == vs[k]
    ensures forall s :: s in u ==> Mapped(sip(s), Range(|u|)) in vs
  {
    hide Mapped, Values;
    ValuesMembers(sip, Range(|u|), u);
    forall k | 0 <= k < |vs| ensures exists s :: s in u && Mapped(sip(s), Range(|u|)) == vs[k] {
      assert vs[k] in multiset(vs);
    }
    forall s | s in u ensures Mapped(sip(s), Range(|u|)) in vs {
      assert Mapped(sip(s), Range(|u|)) in multiset(vs);
    }
  }

  lemma MadeWellFormed(sip: Script -> U64, u: set<Script>, vs: seq<nat>)
    requires Ascending(0, vs) && |vs| == |u| <= MAX_COUNT && multiset(vs) == Values(sip, Range(|u|), u)
    ensures WellFormed(vs)
  {
    MembersOf(sip, u, vs);
    forall k | 0 <= k < |vs| ensures vs[k] < Range(|vs|) {
      var s :| s in u && Mapped(sip(s), Range(|u|)) == vs[k];
      MappedBelow(sip(s), Range(|u|));
    }
  }

  lemma CountOf(vs: seq<nat>)
    requires WellFormed(vs)
    ensures var c := Count(EncodeValues(vs), MAX_COUNT); c.Some? && c.value.value == |vs|
    ensures ParseFilter(EncodeValues(vs)).Some? && ParseFilter(EncodeValues(vs)).value.values == vs
  {
    hide Codes, Pack, Compact, Count, Parse, Unpack;
    CountsCompact(|vs|, Pack(Codes(0, vs)), MAX_COUNT);
    FilterRoundTrip(vs);
  }

  /** A million scripts is also the most a filter may hold and still be accepted. */
  lemma AcceptedExactly(sip: Script -> U64, u: set<Script>, f: seq<nat>)
    requires IsFilterOf(sip, u, f)
    ensures Decode(f).Some? <==> |u| <= MAX_COUNT
  {
    if |u| <= MAX_COUNT {
      FilterMatches(sip, u, f, []);
    } else {
      hide Codes, Pack, Compact, Count, Ascending, Values;
      var vs: seq<nat> :| Ascending(0, vs) && |vs| == |u| < TWO_64
                          && multiset(vs) == Values(sip, Range(|u|), u) && f == EncodeValues(vs);
      TooManyCounts(|vs|, Pack(Codes(0, vs)), MAX_COUNT);
    }
  }

  /** No false negatives: a script that went into the filter always matches. */
  lemma NoFalseNegatives(sip: Script -> U64, block: seq<Script>, f: seq<nat>, scripts: seq<Script>, i: nat)
    requires IsFilterOf(sip, Elements(block), f) && |Elements(block)| <= MAX_COUNT
    requires i < |scripts| && scripts[i] in Elements(block)
    ensures Decode(f).Some? && ParseFilter(f).Some? && Hits(ParseFilter(f).value.values, Queries(sip, f, scripts))
  {
    FilterMatches(sip, Elements(block), f, scripts);
    assert SameValue(sip, |Elements(block)|, scripts[i], scripts[i]);
  }
}
