/** A buffered output port of src/love/io.c over any device: what landed, then what waits, is what was put. */
module Ports {

  type byte = x: nat | x < 256

  const IOBUF: nat := 4096

  /** The device: its answer to its c-th asking, with n bytes offered. Negative: gone; 0: not now; else how
      many it took, never more than it was offered. */
  type Device = dev: (nat, nat) -> int | forall c, n :: dev(c, n) <= n witness (c: nat, n: nat) => 0

  class Port {
    const dev: Device
    /** The backing, empty until it is dressed, and how much of it waits. */
    var buf: array<byte>
    var wlen: nat
    var calls: nat
    /** In history: the bytes that landed, those put, and whether the device ever said it was gone. */
    ghost var landed: seq<byte>
    ghost var put: seq<byte>
    ghost var gone: bool

    ghost predicate Valid()
      reads this, buf
    {
      wlen <= buf.Length && (!gone ==> landed + buf[..wlen] == put)
    }

    ghost function Waits(): (q: seq<byte>)
      reads this, buf
      requires wlen <= buf.Length
    { buf[..wlen] }

    /** The device was last asked with all that waits, and took none of it. */
    ghost predicate Stalled()
      reads this
    { calls > 0 && dev(calls - 1, wlen) == 0 }

    constructor (dev: Device)
      ensures Valid() && fresh(buf) && this.dev == dev && put == [] && landed == [] && !gone && wlen == 0
    {
      this.dev := dev;
      buf, wlen, calls := new byte[0], 0, 0;
      landed, put, gone := [], [], false;
    }

    /** writen: a run offered. */
    method Offer(bs: seq<byte>) returns (k: int)
      modifies this`calls, this`landed, this`gone
      ensures k <= |bs| && landed == old(landed) + (if k > 0 then bs[..k] else [])
      ensures gone == (old(gone) || k < 0) && calls == old(calls) + 1 && k == dev(old(calls), |bs|)
    {
      k := dev(calls, |bs|);
      calls := calls + 1;
      landed := landed + if k > 0 then bs[..k] else [];
      gone := gone || k < 0;
    }

    /** io_wdrain: the run offered until it is gone, or refused; what is left of it begins at 0 again. It ends with
        nothing waiting, or a device that just took nothing. */
    method Drain()
      requires Valid()
      modifies this`wlen, this`calls, this`landed, this`gone, buf
      ensures Valid() && old(landed) <= landed && wlen <= old(wlen) && (old(gone) ==> gone)
      ensures wlen == 0 || (Stalled() && calls > old(calls))
    {
      while wlen > 0
        invariant Valid() && old(landed) <= landed && wlen <= old(wlen) && (old(gone) ==> gone) && calls >= old(calls)
        decreases wlen
      {
        var more := DrainOnce();
        if !more { return; }
      }
    }

    method DrainOnce() returns (more: bool)
      requires Valid() && wlen > 0
      modifies this`wlen, this`calls, this`landed, this`gone, buf
      ensures Valid() && old(landed) <= landed && wlen <= old(wlen) && (old(gone) ==> gone) && (more ==> wlen < old(wlen)) && calls > old(calls)
      ensures !more ==> wlen == 0 || Stalled()
    {
      ghost var l, q := landed, Waits();
      var k := Offer(buf[..wlen]);
      more := k > 0;
      if k < 0 {
        wlen := 0;
      } else if k > 0 {
        Slide(k);
        TakeDrop(l, q, k);
      }
    }

    lemma TakeDrop(l: seq<byte>, q: seq<byte>, k: nat)
      requires k <= |q|
      ensures (l + q[..k]) + q[k..] == l + q
    {
      assert q[..k] + q[k..] == q;
    }

    method Slide(k: nat)
      requires k <= wlen <= buf.Length
      modifies this`wlen, buf
      ensures wlen == old(wlen) - k && Waits() == old(Waits())[k..]
    {
      ghost var q := Waits();
      var i := 0;
      while i < wlen - k
        invariant i <= wlen - k && wlen == old(wlen)
        invariant buf[..i] == q[k..][..i] && buf[k + i..wlen] == q[k + i..]
      {
        assert buf[k + i] == buf[k + i..wlen][0] == q[k + i..][0];
        assert buf[k + i + 1..wlen] == buf[k + i..wlen][1..] == q[k + i + 1..];
        buf[i] := buf[k + i];
        i := i + 1;
      }
      wlen := wlen - k;
      assert q[k..][..i] == q[k..];
    }

    /** bio_wroom: the backing dressed, and doubled until m more fit. */
    method Room(m: nat)
      requires Valid()
      modifies this`buf
      ensures Valid() && Waits() == old(Waits()) && wlen + m <= buf.Length && (buf == old(buf) || fresh(buf))
    {
      if buf.Length == 0 { Grow(IOBUF); }
      while wlen + m > buf.Length
        invariant Valid() && Waits() == old(Waits()) && buf.Length > 0 && (buf == old(buf) || fresh(buf))
        decreases wlen + m - buf.Length
      {
        Grow(2 * buf.Length);
      }
    }

    /** bio_wgrow. */
    method Grow(cap: nat)
      requires Valid() && cap >= buf.Length
      modifies this`buf
      ensures Valid() && Waits() == old(Waits()) && buf.Length == cap && fresh(buf)
    {
      var b := new byte[cap];
      forall i | 0 <= i < wlen { b[i] := buf[i]; }
      assert b[..wlen] == buf[..wlen];
      buf := b;
    }

    /** Bytes after those that wait. */
    method Join(bs: seq<byte>)
      requires Valid() && wlen + |bs| <= buf.Length
      modifies this`wlen, this`put, buf
      ensures Valid() && put == old(put) + bs && Waits() == old(Waits()) + bs
    {
      ghost var q := Waits();
      forall i | 0 <= i < |bs| { buf[wlen + i] := bs[i]; }
      wlen := wlen + |bs|;
      put := put + bs;
      assert buf[..wlen] == q + bs;
      assert landed + (q + bs) == landed + q + bs;
    }

    /** ioputc: a byte onto the run, which is offered when its backing is full. */
    method Putc(c: byte)
      requires Valid()
      modifies this`buf, this`wlen, this`calls, this`landed, this`put, this`gone, buf
      ensures Valid() && (buf == old(buf) || fresh(buf))
      ensures put == old(put) + [c] && old(landed) <= landed && (old(gone) ==> gone)
      ensures wlen < buf.Length || Stalled()
    {
      Room(1);
      Join([c]);
      if wlen >= buf.Length { Drain(); }
    }

    /** The write loop of fputs: the run first; past an empty one the bytes go straight to the device, and
        what it will not take joins the run whole. Parked, with a full buffer's worth still waiting, it
        takes nothing. */
    method Puts(s: seq<byte>) returns (parked: bool)
      requires Valid()
      modifies this`buf, this`wlen, this`calls, this`landed, this`put, this`gone, buf
      ensures Valid() && (buf == old(buf) || fresh(buf))
      ensures put == (if parked then old(put) else old(put) + s) && old(landed) <= landed && (old(gone) ==> gone)
      ensures (parked ==> wlen >= IOBUF) && (wlen == 0 || Stalled())
    {
      parked := false;
      Drain();
      if wlen >= IOBUF { return true; }
      var i := 0;
      ghost var b0 := buf;
      while i < |s|
        invariant i <= |s| && Valid() && (buf == b0 || fresh(buf))
        invariant put == old(put) + s[..i] && old(landed) <= landed && (old(gone) ==> gone)
      {
        var k := 0;
        if wlen == 0 { k := Stroke(s, i); }
        if k > 0 {
          assert s[..i] + s[i..i + k] == s[..i + k];
          i := i + k;
        } else {
          Room(|s| - i);
          Join(s[i..]);
          assert s[..i] + s[i..] == s[..|s|];
          i := |s|;
        }
      }
      assert s[..|s|] == s;
      Drain();
    }

    /** The bulk stroke: with nothing waiting, what the device takes is put and lands at once. */
    method Stroke(s: seq<byte>, i: nat) returns (k: int)
      requires Valid() && wlen == 0 && i < |s|
      modifies this`calls, this`landed, this`put, this`gone
      ensures Valid() && k <= |s| - i && old(landed) <= landed && (old(gone) ==> gone)
      ensures put == old(put) + if k > 0 then s[i..i + k] else []
    {
      assert buf[..wlen] == [];
      k := Offer(s[i..]);
      if k > 0 {
        assert s[i..][..k] == s[i..i + k];
        put := put + s[i..i + k];
      }
      assert landed + [] == landed && put + [] == put;
    }
  }
}
