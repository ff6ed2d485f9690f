/**
 * Row identifiers: 128-bit UUIDs, held as their 32 hexadecimal digits, with
 * the text form the tools print (`str(uuid)`) and the parser they accept
 * (`uuid.UUID(text)`).
 */
module Ids {
  import opened Outcomes

  newtype Nibble = x: int | 0 <= x < 16

  const IdDigits := 32

  /** A UUID: exactly 32 hexadecimal digits. */
  type Id = s: seq<Nibble> | |s| == IdDigits witness seq(32, _ => 0)

  predicate IsHexDigit(c: char) {
    '0' <= c <= '9' || 'a' <= c <= 'f' || 'A' <= c <= 'F'
  }

  predicate AllHex(s: string) {
    forall i :: 0 <= i < |s| ==> IsHexDigit(s[i])
  }

  /** Hex digits are read in either case. */
  function HexValue(c: char): Nibble
    requires IsHexDigit(c)
  {
    if '0' <= c <= '9' then (c as int - '0' as int) as Nibble
    else if 'a' <= c <= 'f' then (c as int - 'a' as int + 10) as Nibble
    else (c as int - 'A' as int + 10) as Nibble
  }

  /** Hex digits are written in lower case. */
  function HexChar(n: Nibble): (c: char)
    ensures IsHexDigit(c) && c != '-' && HexValue(c) == n
  {
    if n < 10 then ('0' as int + n as int) as char else ('a' as int + n as int - 10) as char
  }

  function Hex(ns: seq<Nibble>): (s: string)
    ensures |s| == |ns|
  {
    if ns == [] then [] else [HexChar(ns[0])] + Hex(ns[1..])
  }

  function Nibbles(s: string): (ns: seq<Nibble>)
    requires AllHex(s)
    ensures |ns| == |s|
  {
    if s == [] then [] else [HexValue(s[0])] + Nibbles(s[1..])
  }

  function WithoutHyphens(s: string): string {
    if s == [] then [] else (if s[0] == '-' then [] else [s[0]]) + WithoutHyphens(s[1..])
  }

  /**
   * `uuid.UUID(text)`: hyphens are dropped wherever they stand, and what is
   * left must be exactly 32 hexadecimal digits.
   */
  function ParseId(s: string): Option<Id> {
    var h := WithoutHyphens(s);
    if |h| == IdDigits && AllHex(h) then Some(Nibbles(h)) else None
  }

  /** `str(uuid)`: lower-case digits grouped 8-4-4-4-12. */
  function FormatId(id: Id): (s: string)
    ensures |s| == 36
  {
    Hex(id[..8]) + "-" + Hex(id[8..12]) + "-" + Hex(id[12..16]) + "-" + Hex(id[16..20]) + "-" + Hex(id[20..])
  }

  lemma {:induction false} HexConcat(a: seq<Nibble>, b: seq<Nibble>)
    ensures Hex(a + b) == Hex(a) + Hex(b)
  {
    if a == [] {
      assert a + b == b;
    } else {
      assert (a + b)[1..] == a[1..] + b;
      HexConcat(a[1..], b);
    }
  }

  lemma {:induction false} HexIsHexDigits(ns: seq<Nibble>)
    ensures AllHex(Hex(ns)) && Nibbles(Hex(ns)) == ns && WithoutHyphens(Hex(ns)) == Hex(ns)
  {
    if ns != [] {
      HexIsHexDigits(ns[1..]);
    }
  }

  lemma {:induction false} WithoutHyphensConcat(a: string, b: string)
    ensures WithoutHyphens(a + b) == WithoutHyphens(a) + WithoutHyphens(b)
  {
    if a == [] {
      assert a + b == b;
    } else {
      assert (a + b)[1..] == a[1..] + b;
      WithoutHyphensConcat(a[1..], b);
    }
  }

  lemma DropDash(x: string, y: string)
    ensures WithoutHyphens(x + "-" + y) == WithoutHyphens(x) + WithoutHyphens(y)
  {
    assert WithoutHyphens("-") == [];
    WithoutHyphensConcat(x, "-");
    WithoutHyphensConcat(x + "-", y);
  }

  /** The hyphen-free digits of four joined groups, one group at a time. */
  lemma HyphenFreeGroups(g: seq<Nibble>, rest: seq<Nibble>, prefix: string)
    requires WithoutHyphens(prefix) == Hex(g)
    ensures WithoutHyphens(prefix + "-" + Hex(rest)) == Hex(g + rest)
  {
    DropDash(prefix, Hex(rest));
    HexIsHexDigits(rest);
    HexConcat(g, rest);
  }

  /** A printed id reads back as the same id. */
  lemma FormatThenParseId(id: Id)
    ensures ParseId(FormatId(id)) == Some(id)
  {
    var p1 := Hex(id[..8]);
    HexIsHexDigits(id[..8]);
    var p2 := p1 + "-" + Hex(id[8..12]);
    HyphenFreeGroups(id[..8], id[8..12], p1);
    assert id[..8] + id[8..12] == id[..12];
    var p3 := p2 + "-" + Hex(id[12..16]);
    HyphenFreeGroups(id[..12], id[12..16], p2);
    assert id[..12] + id[12..16] == id[..16];
    var p4 := p3 + "-" + Hex(id[16..20]);
    HyphenFreeGroups(id[..16], id[16..20], p3);
    assert id[..16] + id[16..20] == id[..20];
    var p5 := p4 + "-" + Hex(id[20..]);
    HyphenFreeGroups(id[..20], id[20..], p4);
    assert id[..20] + id[20..] == id;
    assert p5 == FormatId(id);
    HexIsHexDigits(id);
  }

  /** Distinct ids print differently. */
  lemma FormatIdInjective(a: Id, b: Id)
    requires FormatId(a) == FormatId(b)
    ensures a == b
  {
    FormatThenParseId(a);
    FormatThenParseId(b);
  }
}
