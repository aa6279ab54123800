/** AddressField: a set of addresses kept as 32 bytes of eight bits. */
module Addresses {
  import opened Bytes
  import opened Packets
  import opened Parsing
  import opened RoundTrip

  type Field = f: seq<byte> | |f| == ADDRESS_BYTES witness seq(ADDRESS_BYTES, i => 0)

  /** get_addr. */
  predicate Has(f: Field, addr: byte) {
    Bit(f[addr / 8], addr % 8)
  }

  /** set_addr. */
  function With(f: Field, addr: byte, v: bool): Field {
    f[addr / 8 := ByteSetBit(f[addr / 8], addr % 8, v)]
  }

  class AddressField {
    const bits: array<byte>

    constructor ()
      ensures fresh(bits) && bits.Length == ADDRESS_BYTES
      ensures forall a: byte :: !Has(bits[..], a)
    {
      bits := new byte[ADDRESS_BYTES](i => 0);
      new;
      forall a: byte
        ensures !Has(bits[..], a)
      {
        ZeroHasNoBits(a % 8);
      }
    }

    method SetAddr(addr: byte, v: bool)
      requires bits.Length == ADDRESS_BYTES
      modifies bits
      ensures bits[..] == With(old(bits[..]), addr, v)
    {
      bits[addr / 8] := ByteSetBit(bits[addr / 8], addr % 8, v);
    }

    method GetAddr(addr: byte) returns (r: bool)
      requires bits.Length == ADDRESS_BYTES
      ensures r == Has(bits[..], addr)
    {
      r := Bit(bits[addr / 8], addr % 8);
    }
  }

  lemma {:induction false} ZeroHasNoBits(k: nat)
    ensures !Bit(0, k)
  {
    if k > 0 {
      ZeroHasNoBits(k - 1);
    }
  }

  /** set_addr changes the membership of its own address and of no other. */
  lemma HasAfterWith(f: Field, a: byte, v: bool, b: byte)
    ensures Has(With(f, a, v), b) == if a == b then v else Has(f, b)
  {
    if a / 8 == b / 8 {
      assert a == b <==> a % 8 == b % 8;
    }
  }

  datatype Change = Change(addr: byte, v: bool)

  function WithAll(f: Field, changes: seq<Change>): Field {
    if changes == [] then f
    else var n := |changes| - 1; With(WithAll(f, changes[..n]), changes[n].addr, changes[n].v)
  }

  /** Position `i` holds the last change of address `b`. */
  predicate LastChange(changes: seq<Change>, i: nat, b: byte) {
    && i < |changes| && changes[i].addr == b
    && forall j | i < j < |changes| :: changes[j].addr != b
  }

  /** After any calls of set_addr, get_addr gives the last value set, or the old one. */
  lemma {:induction false} LastValueWins(f: Field, changes: seq<Change>, b: byte)
    ensures forall i: nat | LastChange(changes, i, b) :: Has(WithAll(f, changes), b) == changes[i].v
    ensures (forall i | 0 <= i < |changes| :: changes[i].addr != b) ==> Has(WithAll(f, changes), b) == Has(f, b)
  {
    if changes != [] {
      var n := |changes| - 1;
      var g := WithAll(f, changes[..n]);
      LastValueWins(f, changes[..n], b);
      HasAfterWith(g, changes[n].addr, changes[n].v, b);
      forall i: nat | LastChange(changes, i, b)
        ensures Has(WithAll(f, changes), b) == changes[i].v
      {
        if i < n {
          assert changes[n].addr != b;
          assert LastChange(changes[..n], i, b);
        }
      }
    }
  }

  /** A field is determined by its addresses. */
  lemma SameAddresses(f: Field, g: Field)
    requires forall a: byte :: Has(f, a) == Has(g, a)
    ensures f == g
  {
    forall i | 0 <= i < ADDRESS_BYTES
      ensures f[i] == g[i]
    {
      forall k: nat | k < 8
        ensures Bit(f[i], k) == Bit(g[i], k)
      {
        var a: byte := 8 * i + k;
        assert a / 8 == i && a % 8 == k;
        assert Has(f, a) == Has(g, a);
      }
      PowEight();
      SameBits(f[i], g[i], 8);
    }
  }

  /** An address list sent and parsed has the same answer to every get_addr. */
  lemma FieldSurvives(p: Parser, f: Field)
    requires !p.stuff
    ensures var q := Run(p, Wire(AddrList(f)));
      && |q.handled| == |p.handled| + 1 && q.handled[|p.handled|].AddrList?
      && |q.handled[|p.handled|].field| == ADDRESS_BYTES
      && forall a: byte :: Has(q.handled[|p.handled|].field, a) == Has(f, a)
  {
    FrameDelivers(p, AddrList(f));
  }
}
