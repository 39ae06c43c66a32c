/** Cashaddr addresses (src/btcswap.cpp, `CashEncode`, `CashDecode`): a prefix, then the
    five-bit groups of a version byte and a hash, closed by eight groups of checksum. */
module CashAddr {
  import opened Options
  import opened Regroup
  import opened CashChecksum
  import opened CashTwoErrors

  const CHARSET := "qpzry9x8gf2tvdw0s3jn54khce6mua7l"

  datatype Address = Address(kind: nat, hash: seq<nat>)

  // ---- characters --------------------------------------------------------------------------

  function CharOf(g: Group): char { CHARSET[g] }

  /** Where the alphabet has a character. */
  function GroupOf(c: char): Option<Group> {
    match c
    case 'q' => Some(0) case 'p' => Some(1) case 'z' => Some(2) case 'r' => Some(3)
    case 'y' => Some(4) case '9' => Some(5) case 'x' => Some(6) case '8' => Some(7)
    case 'g' => Some(8) case 'f' => Some(9) case '2' => Some(10) case 't' => Some(11)
    case 'v' => Some(12) case 'd' => Some(13) case 'w' => Some(14) case '0' => Some(15)
    case 's' => Some(16) case '3' => Some(17) case 'j' => Some(18) case 'n' => Some(19)
    case '5' => Some(20) case '4' => Some(21) case 'k' => Some(22) case 'h' => Some(23)
    case 'c' => Some(24) case 'e' => Some(25) case '6' => Some(26) case 'm' => Some(27)
    case 'u' => Some(28) case 'a' => Some(29) case '7' => Some(30) case 'l' => Some(31)
    case _ => None
  }

  predicate IsUpper(c: char) { 'A' <= c <= 'Z' }
  predicate IsLower(c: char) { 'a' <= c <= 'z' }

  lemma CharInverse(g: Group)
    ensures GroupOf(CharOf(g)) == Some(g) && !IsUpper(CharOf(g)) && CharOf(g) != ':'
  {
  }

  lemma GroupInverse(c: char)
    requires GroupOf(c).Some?
    ensures CharOf(GroupOf(c).value) == c
  {
  }

  function Text(g: seq<Group>): (s: string)
    ensures |s| == |g| && forall i :: 0 <= i < |g| ==> s[i] == CharOf(g[i])
  {
    seq(|g|, i requires 0 <= i < |g| => CharOf(g[i]))
  }

  predicate InAlphabet(s: string) { forall i :: 0 <= i < |s| ==> GroupOf(s[i]).Some? }

  function GroupsOf(s: string): (g: seq<Group>)
    requires InAlphabet(s)
    ensures |g| == |s| && forall i :: 0 <= i < |s| ==> g[i] == GroupOf(s[i]).value
  {
    seq(|s|, i requires 0 <= i < |s| => GroupOf(s[i]).value)
  }

  lemma TextInverse(g: seq<Group>)
    ensures InAlphabet(Text(g)) && GroupsOf(Text(g)) == g
    ensures forall i :: 0 <= i < |g| ==> !IsUpper(Text(g)[i]) && Text(g)[i] != ':'
  {
    hide CharOf, GroupOf;
    forall i | 0 <= i < |g| ensures GroupOf(Text(g)[i]) == Some(g[i]) && !IsUpper(Text(g)[i]) && Text(g)[i] != ':' {
      CharInverse(g[i]);
    }
  }

  lemma GroupsInverse(s: string)
    requires InAlphabet(s)
    ensures Text(GroupsOf(s)) == s
  {
    hide CharOf, GroupOf;
    forall i | 0 <= i < |s| ensures Text(GroupsOf(s))[i] == s[i] {
      GroupInverse(s[i]);
    }
  }

  // ---- groups ----------------------------------------------------------------------------------

  function Narrow(s: seq<nat>): (g: seq<Group>)
    requires Below(32, s)
    ensures g == s
  {
    s
  }

  function PrefixBits(prefix: string): seq<Group> {
    seq(|prefix|, i requires 0 <= i < |prefix| => prefix[i] as int % 32) + [0]
  }

  /** The version byte: the kind of hash and a code for its length. */
  function Version(kind: nat, n: nat): nat { (kind * 8 + if n == 32 then 3 else 0) % 256 }

  function DataGroups(payload: seq<nat>): seq<Group>
    requires Below(256, payload)
  {
    RegroupRoundTrip(payload);
    Narrow(ToGroups(payload))
  }

  function Closed(prefix: string, groups: seq<Group>): seq<Group> {
    groups + CheckGroups(PolyMod(PrefixBits(prefix) + groups + Zeros(8)))
  }

  function Payload(a: Address): seq<nat> { [Version(a.kind, |a.hash|)] + a.hash }

  ghost predicate IsAddress(a: Address) { a.kind < 256 && Below(256, a.hash) }

  function Encode(prefix: string, a: Address): string
    requires IsAddress(a)
  {
    prefix + ":" + Text(Closed(prefix, DataGroups(Payload(a))))
  }

  /** What a payload stands for: seven bits of version, a known length. */
  function Read(payload: seq<nat>): Option<Address> {
    if payload == [] || payload[0] >= 128 then None
    else
      var code := payload[0] % 8;
      if (code == 0 && |payload| == 21) || (code == 3 && |payload| == 33)
      then Some(Address(payload[0] / 8, payload[1..])) else None
  }

  function DecodeGroups(prefix: string, g: seq<Group>): Option<Address> {
    if |g| < 9 || PolyMod(PrefixBits(prefix) + g) != 0 then None
    else
      var p := FromGroups(g[..|g| - 8]);
      if p.None? then None else Read(p.value)
  }

  function LowerOf(c: char): char { if IsUpper(c) then (c as int + 32) as char else c }

  function Lower(s: string): (r: string)
    ensures |r| == |s| && forall i :: 0 <= i < |s| ==> r[i] == LowerOf(s[i])
  {
    seq(|s|, i requires 0 <= i < |s| => LowerOf(s[i]))
  }

  predicate Mixed(s: string) {
    (exists i :: 0 <= i < |s| && IsUpper(s[i])) && (exists i :: 0 <= i < |s| && IsLower(s[i]))
  }

  /** The first colon, or the length when there is none. */
  function Colon(s: string): (k: nat)
    ensures k <= |s| && (forall i :: 0 <= i < k ==> s[i] != ':') && (k < |s| ==> s[k] == ':')
  {
    if s == [] || s[0] == ':' then 0 else 1 + Colon(s[1..])
  }

  function Stripped(prefix: string, s: string): Option<string> {
    var k := Colon(s);
    if k == |s| then Some(s) else if s[..k] == prefix then Some(s[k + 1..]) else None
  }

  function Decode(prefix: string, addr: string): Option<Address> {
    if Mixed(addr) then None
    else
      var s := Stripped(prefix, Lower(addr));
      if s.None? || !InAlphabet(s.value) then None else DecodeGroups(prefix, GroupsOf(s.value))
  }

  // ---- the groups, there and back -----------------------------------------------------------------

  lemma ReadVersion(a: Address)
    requires IsAddress(a)
    ensures Read(Payload(a)) == Some(a) <==> a.kind < 16 && (|a.hash| == 20 || |a.hash| == 32)
  {
    var p := Payload(a);
    assert p[1..] == a.hash;
    var v := Version(a.kind, |a.hash|);
    assert a.kind < 16 ==> v == a.kind * 8 + if |a.hash| == 32 then 3 else 0;
  }

  lemma EncodedGroups(prefix: string, a: Address)
    requires IsAddress(a)
    ensures DecodeGroups(prefix, Closed(prefix, DataGroups(Payload(a)))) == Read(Payload(a))
  {
    hide PolyMod, Read, ToGroups, FromGroups, CheckGroups;
    var p := Payload(a);
    RegroupRoundTrip(p);
    var d := DataGroups(p);
    var bits := PrefixBits(prefix);
    var check := CheckGroups(PolyMod(bits + d + Zeros(8)));
    ChecksumCloses(bits + d, check);
    assert bits + d + check == bits + (d + check);
    assert (d + check)[..|d + check| - 8] == d;
  }

  /** Only the one closed encoding of an address is read as that address. */
  lemma DecodedGroups(prefix: string, g: seq<Group>)
    requires DecodeGroups(prefix, g).Some?
    ensures
      var a := DecodeGroups(prefix, g).value;
      && IsAddress(a) && a.kind < 16 && (|a.hash| == 20 || |a.hash| == 32)
      && g == Closed(prefix, DataGroups(Payload(a)))
  {
    hide PolyMod, ToGroups, FromGroups, CheckGroups;
    var n := |g| - 8;
    var d, c, bits := g[..n], g[n..], PrefixBits(prefix);
    assert bits + g == bits + d + c && g == d + c;
    ChecksumCloses(bits + d, c);
    GroupsUnique(d);
    ReadBack(FromGroups(d).value);
  }

  lemma ReadBack(p: seq<nat>)
    requires Below(256, p) && Read(p).Some?
    ensures
      var a := Read(p).value;
      IsAddress(a) && a.kind < 16 && (|a.hash| == 20 || |a.hash| == 32) && Payload(a) == p
  {
    hide Version;
    VersionBack(p[0], |p| - 1);
    assert p == [p[0]] + p[1..];
  }

  lemma VersionBack(b: nat, n: nat)
    requires b < 128 && ((b % 8 == 0 && n == 20) || (b % 8 == 3 && n == 32))
    ensures b / 8 < 16 && Version(b / 8, n) == b
  {
  }

  // ---- whole addresses ------------------------------------------------------------------------------

  /** A prefix that survives lower-casing and holds no colon, as every chain's does. */
  ghost predicate Plain(prefix: string) {
    forall i :: 0 <= i < |prefix| ==> !IsUpper(prefix[i]) && prefix[i] != ':'
  }

  lemma ColonAt(s: string, k: nat)
    requires k < |s| && s[k] == ':' && forall i :: 0 <= i < k ==> s[i] != ':'
    ensures Colon(s) == k
  {
  }

  lemma StripPrefix(prefix: string, body: string)
    requires Plain(prefix) && forall i :: 0 <= i < |body| ==> !IsUpper(body[i]) && body[i] != ':'
    ensures
      var s := prefix + ":" + body;
      !Mixed(s) && Lower(s) == s && Stripped(prefix, Lower(s)) == Some(body)
  {
    var s := prefix + ":" + body;
    assert forall i :: 0 <= i < |prefix| ==> s[i] == prefix[i];
    assert s[|prefix|] == ':' && forall i :: |prefix| < i < |s| ==> s[i] == body[i - |prefix| - 1];
    NoCapitals(s);
    ColonAt(s, |prefix|);
    assert s[..|prefix|] == prefix && s[|prefix| + 1..] == body;
  }

  lemma NoCapitals(s: string)
    requires forall i :: 0 <= i < |s| ==> !IsUpper(s[i])
    ensures !Mixed(s) && Lower(s) == s
  {
  }

  /** What is encoded is read back, exactly for the kinds below sixteen and the hashes of
      twenty or thirty-two bytes; every other kind or length is refused or read as
      something else. */
  lemma AddressRoundTrip(prefix: string, a: Address)
    requires Plain(prefix) && IsAddress(a)
    ensures Decode(prefix, Encode(prefix, a)) == Some(a) <==> a.kind < 16 && (|a.hash| == 20 || |a.hash| == 32)
  {
    hide DecodeGroups, Closed, DataGroups, Read, Mixed, Stripped;
    var g := Closed(prefix, DataGroups(Payload(a)));
    TextInverse(g);
    StripPrefix(prefix, Text(g));
    EncodedGroups(prefix, a);
    ReadVersion(a);
  }

  /** Every address that is accepted, with its prefix or without, in capitals or not, is
      the one encoding of what it is read as. */
  lemma DecodedIsEncoded(prefix: string, addr: string)
    requires Decode(prefix, addr).Some?
    ensures
      var a := Decode(prefix, addr).value;
      && IsAddress(a) && a.kind < 16 && (|a.hash| == 20 || |a.hash| == 32)
      && Stripped(prefix, Lower(addr)).Some?
      && Encode(prefix, a) == prefix + ":" + Stripped(prefix, Lower(addr)).value
  {
    hide DecodeGroups, Closed, DataGroups, Read, Mixed, Stripped, Payload;
    var s := Stripped(prefix, Lower(addr)).value;
    DecodedGroups(prefix, GroupsOf(s));
    GroupsInverse(s);
  }

  /** An accepted address has forty-two or sixty-one groups. */
  lemma DecodedLength(prefix: string, g: seq<Group>)
    requires DecodeGroups(prefix, g).Some?
    ensures |g| == 42 || |g| == 61
  {
    hide DecodeGroups, ToGroups, CheckGroups, PolyMod;
    DecodedGroups(prefix, g);
    var p := Payload(DecodeGroups(prefix, g).value);
    RegroupRoundTrip(p);
    assert |DataGroups(p)| == GroupsFor(|p|);
  }

  /** The text after the prefix, and where it starts. */
  function BodyAt(s: string): (k: nat)
    ensures k <= |s|
  {
    if Colon(s) == |s| then 0 else Colon(s) + 1
  }

  /** What makes an address in small letters acceptable. */
  ghost predicate Good(prefix: string, a: string) {
    var k := BodyAt(a);
    && (k > 0 ==> a[..k - 1] == prefix && a[k - 1] == ':')
    && (forall i :: k <= i < |a| ==> a[i] != ':')
    && InAlphabet(a[k..]) && DecodeGroups(prefix, GroupsOf(a[k..])).Some? && (|a| - k == 42 || |a| - k == 61)
  }

  lemma Accepted(prefix: string, addr: string)
    requires Decode(prefix, addr).Some?
    ensures Good(prefix, Lower(addr))
  {
    hide DecodeGroups, GroupOf, Mixed;
    var a := Lower(addr);
    var k := BodyAt(a);
    var s := Stripped(prefix, a).value;
    assert s == a[k..];
    DecodedLength(prefix, GroupsOf(s));
    forall i | k <= i < |a| ensures a[i] != ':' {
      assert a[i] == s[i - k];
      NoColon(s[i - k]);
    }
  }

  lemma NoColon(c: char)
    requires GroupOf(c).Some?
    ensures c != ':'
  {
  }

  /** One wrong character, anywhere in an address and whatever it is, is not accepted: only
      writing the same letter in the other case can be, as the same address, and with a
      prefix of exactly eighteen characters a colon that comes or goes. */
  lemma OneWrongCharacter(prefix: string, addr: string, i: nat, c: char)
    requires Decode(prefix, addr).Some? && i < |addr|
    ensures
      var r := Decode(prefix, addr[i := c]);
      r.Some? ==>
        || (LowerOf(c) == LowerOf(addr[i]) && r == Decode(prefix, addr))
        || (|prefix| == 18 && (LowerOf(c) == ':' || addr[i] == ':'))
  {
    hide DecodeGroups, GroupOf, Mixed, Stripped, Decode;
    var a, w, x := Lower(addr), addr[i := c], LowerOf(c);
    assert Lower(w) == a[i := x];
    if x == a[i] {
      assert Lower(w) == a;
      if Decode(prefix, w).Some? {
        SameText(prefix, addr, w);
      }
    } else if Decode(prefix, w).Some? {
      Accepted(prefix, addr);
      WrongText(prefix, a, i, x);
      Accepted(prefix, w);
    }
  }

  lemma SameText(prefix: string, addr: string, w: string)
    requires Decode(prefix, addr).Some? && Decode(prefix, w).Some? && Lower(w) == Lower(addr)
    ensures Decode(prefix, w) == Decode(prefix, addr)
  {
    hide DecodeGroups, GroupOf, Mixed, Stripped;
  }

  lemma WrongText(prefix: string, a: string, i: nat, x: char)
    requires i < |a| && x != a[i] && Good(prefix, a)
    ensures Good(prefix, a[i := x]) ==> |prefix| == 18 && (x == ':' || a[i] == ':')
  {
    hide DecodeGroups, GroupOf;
    var b := a[i := x];
    var k, m := BodyAt(a), BodyAt(b);
    if k == m {
      assert k > 0 ==> a[k - 1] == ':' && b[k - 1] == ':';
      if i + 1 < k {
        assert b[..k - 1][i] != prefix[i];
      } else if i >= k {
        assert b[k..] == a[k..][i - k := x];
        if InAlphabet(b[k..]) {
          WrongBody(prefix, a[k..], i - k, x);
        }
      }
    } else if k == 0 {
      assert b[m - 1] == ':' && a[m - 1] != ':';
    } else if m == 0 {
      assert a[k - 1] == ':' && b[k - 1] != ':';
    } else {
      assert |b[..m - 1]| != |prefix|;
    }
  }

  lemma WrongBody(prefix: string, s: string, i: nat, x: char)
    requires i < |s| && x != s[i] && InAlphabet(s) && InAlphabet(s[i := x])
    requires DecodeGroups(prefix, GroupsOf(s)).Some?
    ensures DecodeGroups(prefix, GroupsOf(s[i := x])).None?
  {
    hide DecodeGroups, GroupOf;
    var w := s[i := x];
    var g, h := GroupsOf(s), GroupsOf(w);
    GroupInverse(s[i]);
    assert GroupOf(w[i]).Some?;
    GroupInverse(x);
    assert h == g[i := h[i]];
    OneWrongGroup(prefix, g, i, h[i]);
  }

  lemma OneWrongGroup(prefix: string, g: seq<Group>, i: nat, x: Group)
    requires i < |g| && x != g[i] && DecodeGroups(prefix, g).Some?
    ensures DecodeGroups(prefix, g[i := x]).None?
  {
    hide PolyMod, Read, FromGroups;
    var bits := PrefixBits(prefix);
    assert bits + g[i := x] == (bits + g)[|bits| + i := x];
    SingleErrorNoticed(bits + g, |bits| + i, x);
  }

  lemma TwoWrongGroups(prefix: string, g: seq<Group>, i: nat, j: nat, x: Group, y: Group)
    requires i < j < |g| && x != g[i] && y != g[j] && DecodeGroups(prefix, g).Some?
    ensures DecodeGroups(prefix, g[i := x][j := y]).None?
  {
    DecodedLength(prefix, g);
    hide PolyMod, Read, FromGroups;
    var bits := PrefixBits(prefix);
    var n := |bits|;
    assert bits + g[i := x][j := y] == (bits + g)[n + i := x][n + j := y];
    TwoErrorsNoticed(bits + g, n + i, n + j, x, y);
  }

  /** Nor are two wrong characters after the prefix, whatever they are: only with a prefix of
      exactly eighteen characters, on an address written without it, may one of them be the
      colon that makes the characters before it look like one. */
  lemma TwoWrongCharacters(prefix: string, addr: string, i: nat, j: nat, c: char, d: char)
    requires Decode(prefix, addr).Some? && BodyAt(Lower(addr)) <= i < j < |addr|
    requires LowerOf(c) != LowerOf(addr[i]) && LowerOf(d) != LowerOf(addr[j])
    ensures Decode(prefix, addr[i := c][j := d]).Some? ==>
              |prefix| == 18 && BodyAt(Lower(addr)) == 0 && (c == ':' || d == ':')
  {
    hide DecodeGroups, GroupOf, Mixed, Stripped, Decode;
    var a, w, x, y := Lower(addr), addr[i := c][j := d], LowerOf(c), LowerOf(d);
    assert Lower(w) == a[i := x][j := y];
    Accepted(prefix, addr);
    if Decode(prefix, w).Some? {
      Accepted(prefix, w);
      if x != ':' && y != ':' {
        TwoInText(prefix, a, i, j, x, y);
      } else {
        ColonComes(prefix, a, a[i := x][j := y], if x == ':' then i else j);
      }
    }
  }

  /** A colon that comes after the prefix of an acceptable address. */
  lemma ColonComes(prefix: string, a: string, b: string, n: nat)
    requires Good(prefix, a) && Good(prefix, b) && |b| == |a| && BodyAt(a) <= n < |b| && b[n] == ':'
    requires forall l :: 0 <= l < BodyAt(a) ==> b[l] == a[l]
    ensures |prefix| == 18 && BodyAt(a) == 0
  {
    hide DecodeGroups, GroupOf, InAlphabet;
    ColonStays(a, b);
    var m := BodyAt(b);
    if BodyAt(a) == 0 {
      assert m > 0 && |b[..m - 1]| == |prefix|;
    }
  }

  lemma ColonStays(a: string, b: string)
    requires |b| == |a| && forall l :: 0 <= l < BodyAt(a) ==> b[l] == a[l]
    ensures BodyAt(a) > 0 ==> BodyAt(b) == BodyAt(a)
  {
    if BodyAt(a) > 0 {
      ColonAt(b, BodyAt(a) - 1);
    }
  }

  lemma TwoInText(prefix: string, a: string, i: nat, j: nat, x: char, y: char)
    requires Good(prefix, a) && BodyAt(a) <= i < j < |a| && x != a[i] && y != a[j] && x != ':' && y != ':'
    ensures !Good(prefix, a[i := x][j := y])
  {
    hide DecodeGroups, GroupOf, InAlphabet;
    var k, b := BodyAt(a), a[i := x][j := y];
    SameBody(a, i, j, x, y);
    assert b[k..] == a[k..][i - k := x][j - k := y];
    if InAlphabet(b[k..]) {
      TwoInBody(prefix, a[k..], i - k, j - k, x, y);
    }
  }

  lemma SameBody(a: string, i: nat, j: nat, x: char, y: char)
    requires BodyAt(a) <= i < j < |a| && x != ':' && y != ':'
    ensures BodyAt(a[i := x][j := y]) == BodyAt(a)
  {
    var k, b := BodyAt(a), a[i := x][j := y];
    if k > 0 {
      ColonAt(b, k - 1);
    } else {
      assert forall n :: 0 <= n < |b| ==> b[n] != ':';
    }
  }

  lemma TwoInBody(prefix: string, s: string, i: nat, j: nat, x: char, y: char)
    requires i < j < |s| && x != s[i] && y != s[j] && InAlphabet(s) && InAlphabet(s[i := x][j := y])
    requires DecodeGroups(prefix, GroupsOf(s)).Some?
    ensures DecodeGroups(prefix, GroupsOf(s[i := x][j := y])).None?
  {
    hide DecodeGroups, GroupOf;
    var w := s[i := x][j := y];
    var g, h := GroupsOf(s), GroupsOf(w);
    GroupInverse(s[i]);
    GroupInverse(s[j]);
    assert GroupOf(w[i]).Some? && GroupOf(w[j]).Some?;
    GroupInverse(x);
    GroupInverse(y);
    assert h == g[i := h[i]][j := h[j]];
    TwoWrongGroups(prefix, g, i, j, h[i], h[j]);
  }

  // ---- the code ------------------------------------------------------------------------------------------

  method CashEncode(prefix: string, a: Address) returns (s: string)
    requires IsAddress(a)
    ensures s == Encode(prefix, a)
  {
    hide PolyMod, ToGroups, CheckGroups;
    var payload := [Version(a.kind, |a.hash|)] + a.hash;
    var spread := Spread(payload);
    SpellsOne(spread, payload);
    RegroupRoundTrip(payload);
    var groups := Narrow(spread);
    var check := CashPolyMod(PrefixBits(prefix) + groups + Zeros(8));
    var text := Written(groups + CheckGroups(check));
    s := prefix + ":" + text;
  }

  method Written(g: seq<Group>) returns (s: string)
    ensures s == Text(g)
  {
    s := "";
    for i := 0 to |g|
      invariant s == Text(g[..i])
    {
      s := s + [CHARSET[g[i]]];
    }
    assert g[..|g|] == g;
  }

  method Lowered(addr: string) returns (s: string, mixed: bool)
    ensures s == Lower(addr) && mixed == Mixed(addr)
  {
    s := "";
    var upper, lower := false, false;
    for i := 0 to |addr|
      invariant |s| == i && forall j :: 0 <= j < i ==> s[j] == LowerOf(addr[j])
      invariant upper <==> exists j :: 0 <= j < i && IsUpper(addr[j])
      invariant lower <==> exists j :: 0 <= j < i && IsLower(addr[j])
    {
      if IsUpper(addr[i]) {
        upper := true;
      } else if IsLower(addr[i]) {
        lower := true;
      }
      s := s + [LowerOf(addr[i])];
    }
    mixed := upper && lower;
  }

  method WithoutPrefix(prefix: string, s: string) returns (r: Option<string>)
    ensures r == Stripped(prefix, s)
  {
    var k := 0;
    while k < |s| && s[k] != ':'
      invariant 0 <= k <= |s| && forall i :: 0 <= i < k ==> s[i] != ':'
    {
      k := k + 1;
    }
    if k < |s| {
      ColonAt(s, k);
      if s[..k] != prefix {
        return None;
      }
      return Some(s[k + 1..]);
    }
    return Some(s);
  }

  method CashDecode(prefix: string, addr: string) returns (r: Option<Address>)
    ensures r == Decode(prefix, addr)
  {
    hide PolyMod, FromGroups, GroupOf, Stripped, Mixed;
    var lower, mixed := Lowered(addr);
    if mixed {
      return None;
    }
    var body := WithoutPrefix(prefix, lower);
    if body.None? {
      return None;
    }
    var s := body.value;
    var groups: seq<Group> := [];
    for i := 0 to |s|
      invariant |groups| == i && forall j :: 0 <= j < i ==> GroupOf(s[j]) == Some(groups[j])
    {
      if GroupOf(s[i]).None? {
        return None;
      }
      groups := groups + [GroupOf(s[i]).value];
    }
    assert groups == GroupsOf(s);
    r := DecodeBody(prefix, groups);
  }

  method DecodeBody(prefix: string, groups: seq<Group>) returns (r: Option<Address>)
    ensures r == DecodeGroups(prefix, groups)
  {
    hide PolyMod, FromGroups;
    if |groups| < 9 {
      return None;
    }
    var c := CashPolyMod(PrefixBits(prefix) + groups);
    if c != 0 {
      return None;
    }
    var payload := Gather(groups[..|groups| - 8]);
    if payload.None? || payload.value == [] || payload.value[0] >= 128 {
      return None;
    }
    var p := payload.value;
    var n := if p[0] % 8 == 0 then 20 else if p[0] % 8 == 3 then 32 else 0;
    if n == 0 || |p| != n + 1 {
      return None;
    }
    return Some(Address(p[0] / 8, p[1..]));
  }
}
