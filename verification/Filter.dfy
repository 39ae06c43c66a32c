/** The block filters of BIP 158 (src/btclight.cpp): a count, then the Golomb code of the
    scripts' hashes scaled down to a range.  The keyed hash of a script is a parameter. */
module Filter {
  import opened Options
  import opened Powers
  import opened Regroup
  import opened Bits
  import opened Golomb

  const MAX_COUNT: nat := 1000000
  const M: nat := 784931

  // ---- the count --------------------------------------------------------------------------------

  function Little(n: nat, v: nat): (b: seq<nat>)
    ensures |b| == n && Below(256, b)
  {
    if n == 0 then [] else [v % 256] + Little(n - 1, v / 256)
  }

  function FromLittle(b: seq<nat>): nat {
    if b == [] then 0 else b[0] + 256 * FromLittle(b[1..])
  }

  lemma {:induction false} LittleInverse(n: nat, v: nat)
    requires v < Pow256(n)
    ensures FromLittle(Little(n, v)) == v
    decreases n
  {
    if n > 0 {
      LittleInverse(n - 1, v / 256);
      assert Little(n, v)[1..] == Little(n - 1, v / 256);
    }
  }

  lemma {:induction false} LittleUnique(b: seq<nat>)
    requires Below(256, b)
    ensures Little(|b|, FromLittle(b)) == b && FromLittle(b) < Pow256(|b|)
    decreases |b|
  {
    if b != [] {
      LittleUnique(b[1..]);
      assert FromLittle(b) / 256 == FromLittle(b[1..]);
    }
  }

  lemma Widths256()
    ensures Pow256(2) == 0x1_0000 && Pow256(4) == 0x1_0000_0000 && Pow256(8) == 0x1_0000_0000_0000_0000
  {
    assert Pow256(2) == 0x1_0000;
    Pow256Add(2, 2);
    Pow256Add(4, 4);
  }

  const TWO_64: nat := 0x1_0000_0000_0000_0000

  function Width(v: nat): nat {
    if v < 253 then 0 else if v <= 0xffff then 2 else if v <= 0xffff_ffff then 4 else 8
  }

  function Mark(w: nat): nat { if w == 2 then 253 else if w == 4 then 254 else 255 }

  function Compact(v: nat): (b: seq<nat>)
    requires v < TWO_64
    ensures Below(256, b)
  {
    if v < 253 then [v] else [Mark(Width(v))] + Little(Width(v), v)
  }

  function WidthOf(c: nat): nat { if c == 253 then 2 else if c == 254 then 4 else if c == 255 then 8 else 0 }

  datatype Counted = Counted(value: nat, size: nat)

  function Count(f: seq<nat>, most: nat): (r: Option<Counted>)
    ensures r.Some? ==> r.value.size <= |f|
  {
    if f == [] then None
    else
      var w := WidthOf(f[0]);
      if |f| < 1 + w then None
      else
        var v := if w > 0 then FromLittle(f[1..1 + w]) else f[0];
        if (w > 0 && (v < 253 || (w > 2 && v <= 0xffff) || (w > 4 && v <= 0xffff_ffff))) || v > most
        then None else Some(Counted(v, 1 + w))
  }

  lemma CountsCompact(v: nat, t: seq<nat>, most: nat)
    requires v < TWO_64 && v <= most
    ensures Count(Compact(v) + t, most) == Some(Counted(v, |Compact(v)|))
  {
    hide Little, FromLittle;
    var f, w := Compact(v) + t, Width(v);
    Widths256();
    if v >= 253 {
      assert f[1..1 + w] == Little(w, v);
      LittleInverse(w, v);
    }
  }

  lemma TooManyCounts(v: nat, t: seq<nat>, most: nat)
    requires v < TWO_64 && v > most
    ensures Count(Compact(v) + t, most).None?
  {
    hide Little, FromLittle;
    var f, w := Compact(v) + t, Width(v);
    Widths256();
    if v >= 253 {
      assert f[1..1 + w] == Little(w, v);
      LittleInverse(w, v);
    }
  }

  lemma CompactCounts(f: seq<nat>, most: nat)
    requires Below(256, f) && Count(f, most).Some?
    ensures var c := Count(f, most).value; c.value < TWO_64 && f[..c.size] == Compact(c.value)
  {
    hide Little, FromLittle;
    Widths256();
    var c, w := Count(f, most).value, WidthOf(f[0]);
    if w > 0 {
      LittleUnique(f[1..1 + w]);
      assert f[..1 + w] == [f[0]] + f[1..1 + w];
    }
  }

  // ---- the whole filter ------------------------------------------------------------------------------

  function Range(n: nat): nat { n * M }

  ghost function EncodeValues(vs: seq<nat>): seq<nat>
    requires Ascending(0, vs) && |vs| < TWO_64
  {
    Compact(|vs|) + Pack(Codes(0, vs))
  }

  predicate Padding(s: seq<nat>) { |s| < 8 && forall i :: 0 <= i < |s| ==> s[i] == 0 }

  /** The values up to the last one, whatever follows them. */
  function ParseFilter(f: seq<nat>): Option<Parsed> {
    var c := Count(f, MAX_COUNT);
    if c.None? then None
    else Parse(Unpack(f)[8 * c.value.size..], c.value.value, Range(c.value.value), 0)
  }

  function Decode(f: seq<nat>): Option<seq<nat>> {
    var r := ParseFilter(f);
    if r.Some? && Padding(r.value.rest) then Some(r.value.values) else None
  }

  ghost predicate WellFormed(vs: seq<nat>) {
    |vs| <= MAX_COUNT && Ascending(0, vs) && InRange(vs, Range(|vs|))
  }

  /** Every well-formed list of values is read back from its encoding. */
  lemma FilterRoundTrip(vs: seq<nat>)
    requires WellFormed(vs)
    ensures Decode(EncodeValues(vs)) == Some(vs)
  {
    hide Codes, Pack, Unpack, Compact, Parse, Count, Ascending;
    var n, bits := |vs|, Codes(0, vs);
    var head, body := Compact(n), Pack(bits);
    CountsCompact(n, body, MAX_COUNT);
    UnpackConcat(head, body);
    UnpackPack(bits);
    var pad := Zeros(8 * |body| - |bits|);
    assert Unpack(head + body)[8 * |head|..] == bits + pad;
    ParsesCodes(0, vs, pad, Range(n));
  }

  /** Every accepted byte string is the encoding of the values it is read as: there is no
      second way to write a filter. */
  lemma FilterCanonical(f: seq<nat>)
    requires Below(256, f) && Decode(f).Some?
    ensures WellFormed(Decode(f).value) && f == EncodeValues(Decode(f).value)
  {
    hide Codes, Pack, Unpack, Compact, Parse, Ascending;
    var c := Count(f, MAX_COUNT).value;
    CompactCounts(f, MAX_COUNT);
    var head, body := f[..c.size], f[c.size..];
    assert f == head + body;
    UnpackConcat(head, body);
    var u := Unpack(f)[8 * c.size..];
    assert u == Unpack(body);
    CodesParse(u, c.value, Range(c.value), 0);
    var p := ParseFilter(f).value;
    assert p.rest == Zeros(|p.rest|);
    PackUnpack(body, Codes(0, p.values), |p.rest|);
  }
}
