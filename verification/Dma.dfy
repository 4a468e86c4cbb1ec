/**
 * Re-paging a host mapping into controller pages (src/dma.c): the list of controller-page bus
 * addresses, and exactly when it describes the same bytes as the host pages do.
 */
module Dma {
  import opened Modular

  const EINVAL := 22

  /** struct dma_map: host page size, and the bus address of every host page. */
  datatype HostMap = HostMap(pageSize: nat, ioaddrs: seq<nat>)

  /** The sanity check of _nvm_dma_create. */
  predicate Accepted(md: HostMap, ctrlPage: nat)
    requires ctrlPage > 0
  {
    md.pageSize != 0 && md.ioaddrs != [] && Slot(md.pageSize * |md.ioaddrs|, ctrlPage) == 0
  }

  /** Bus address of byte o as the host pages give it. */
  function HostByte(md: HostMap, o: nat): nat
    requires md.pageSize > 0 && o < md.pageSize * |md.ioaddrs|
  {
    InRange(o, md.pageSize, |md.ioaddrs|);
    md.ioaddrs[Lap(o, md.pageSize)] + Slot(o, md.pageSize)
  }

  /** That is, its host page's address and its place in the page. */
  lemma HostByteIs(md: HostMap, o: nat)
    requires md.pageSize > 0 && o < md.pageSize * |md.ioaddrs|
    ensures o / md.pageSize < |md.ioaddrs| && HostByte(md, o) == md.ioaddrs[o / md.pageSize] + o % md.pageSize
  {
    InRange(o, md.pageSize, |md.ioaddrs|);
    LapIsQuotient(o, md.pageSize);
    SlotIsResidue(o, md.pageSize);
  }

  /** A controller's list gives byte o by page o / ctrlPage. */
  lemma CtrlByteIs(list: seq<nat>, ctrlPage: nat, o: nat)
    requires ctrlPage > 0 && o / ctrlPage < |list|
    ensures Lap(o, ctrlPage) < |list| && CtrlByte(list, ctrlPage, o) == list[o / ctrlPage] + o % ctrlPage
  {
    LapIsQuotient(o, ctrlPage);
    SlotIsResidue(o, ctrlPage);
  }

  /** Bus address of byte o as a controller computes it from its page list. */
  function CtrlByte(list: seq<nat>, ctrlPage: nat, o: nat): nat
    requires ctrlPage > 0 && Lap(o, ctrlPage) < |list|
  {
    list[Lap(o, ctrlPage)] + Slot(o, ctrlPage)
  }

  /** Page numbers stay in range. */
  lemma {:induction false} InRange(o: nat, size: nat, n: nat)
    requires size > 0 && o < size * n
    ensures Lap(o, size) < n
  {
    if o >= size {
      assert size * n == size * (n - 1) + size;
      InRange(o - size, size, n - 1);
    }
  }

  /** _nvm_dma_create and _nvm_dma_handle_populate: the list has one entry per controller page. */
  method Populate(md: HostMap, ctrlPage: nat) returns (err: int, list: seq<nat>)
    requires ctrlPage > 0
    ensures err == if Accepted(md, ctrlPage) then 0 else EINVAL
    ensures err == 0 ==> |list| * ctrlPage == md.pageSize * |md.ioaddrs|
    ensures err == 0 ==> forall i | 0 <= i < |list| ::
              i * ctrlPage < md.pageSize * |md.ioaddrs| && list[i] == HostByte(md, i * ctrlPage)
    ensures err == 0 <==> md.pageSize > 0 && |md.ioaddrs| > 0 && md.pageSize * |md.ioaddrs| % ctrlPage == 0
  {
    SlotIsResidue(md.pageSize * |md.ioaddrs|, ctrlPage);
    list := [];
    if md.pageSize == 0 || |md.ioaddrs| == 0 || Slot(md.pageSize * |md.ioaddrs|, ctrlPage) != 0 {
      return EINVAL, [];
    }
    err := 0;
    var bytes := md.pageSize * |md.ioaddrs|;
    var n := Lap(bytes, ctrlPage);
    Decompose(bytes, ctrlPage);
    var i := 0;
    while i < n
      invariant |list| == i <= n && n * ctrlPage == bytes
      invariant forall k | 0 <= k < i :: k * ctrlPage < bytes && list[k] == HostByte(md, k * ctrlPage)
    {
      assert i * ctrlPage < bytes by { assert n * ctrlPage == i * ctrlPage + (n - i) * ctrlPage; SmallMultiple(n - i, ctrlPage); }
      InRange(i * ctrlPage, md.pageSize, |md.ioaddrs|);
      var currentPage := Lap(i * ctrlPage, md.pageSize);
      var offsetWithinPage := Slot(i * ctrlPage, md.pageSize);
      list := list + [md.ioaddrs[currentPage] + offsetWithinPage];
      i := i + 1;
    }
  }

  // ---------------------------------------------------------------- the same bytes, exactly when

  /** The list Populate builds. */
  ghost predicate Populated(md: HostMap, ctrlPage: nat, list: seq<nat>) {
    && ctrlPage > 0 && md.pageSize > 0 && |list| * ctrlPage == md.pageSize * |md.ioaddrs|
    && (forall i | 0 <= i < |list| :: i * ctrlPage < md.pageSize * |md.ioaddrs| && list[i] == HostByte(md, i * ctrlPage))
  }

  /** Every byte of the mapping has the same bus address both ways. */
  ghost predicate SameBytes(md: HostMap, ctrlPage: nat, list: seq<nat>)
    requires Populated(md, ctrlPage, list)
  {
    forall o: nat | o < md.pageSize * |md.ioaddrs| ::
      Lap(o, ctrlPage) < |list| && CtrlByte(list, ctrlPage, o) == HostByte(md, o)
  }

  /** Wherever a host page begins inside a controller page, it follows its predecessor on the bus. */
  ghost predicate Joined(md: HostMap, ctrlPage: nat)
    requires ctrlPage > 0
  {
    forall h | 1 <= h < |md.ioaddrs| && Slot(h * md.pageSize, ctrlPage) != 0 ::
      md.ioaddrs[h] == md.ioaddrs[h - 1] + md.pageSize
  }

  /** The next byte of the host mapping is the next bus address, except perhaps at a page boundary. */
  lemma HostNext(md: HostMap, o: nat)
    requires md.pageSize > 0 && o + 1 < md.pageSize * |md.ioaddrs|
    ensures var h := Lap(o + 1, md.pageSize);
            h < |md.ioaddrs| && o + 1 == h * md.pageSize + Slot(o + 1, md.pageSize) &&
            if Slot(o + 1, md.pageSize) != 0 then HostByte(md, o + 1) == HostByte(md, o) + 1
            else h >= 1 && HostByte(md, o) == md.ioaddrs[h - 1] + md.pageSize - 1 && HostByte(md, o + 1) == md.ioaddrs[h]
  {
    NextSlot(o, md.pageSize);
    NextLap(o, md.pageSize);
    InRange(o + 1, md.pageSize, |md.ioaddrs|);
    Decompose(o + 1, md.pageSize);
  }

  lemma {:induction false} NextLap(k: nat, n: nat)
    requires n > 0
    ensures Lap(k + 1, n) == Lap(k, n) + (if Slot(k, n) + 1 == n then 1 else 0)
  {
    if k >= n { NextLap(k - n, n); }
  }

  /** Inside a controller page, the next byte is the next bus address. */
  lemma CtrlNext(list: seq<nat>, ctrlPage: nat, o: nat)
    requires ctrlPage > 0 && Slot(o, ctrlPage) != 0 && Lap(o, ctrlPage) < |list|
    ensures o >= 1 && Lap(o - 1, ctrlPage) == Lap(o, ctrlPage)
    ensures CtrlByte(list, ctrlPage, o) == CtrlByte(list, ctrlPage, o - 1) + 1
  {
    NextSlot(o - 1, ctrlPage);
    NextLap(o - 1, ctrlPage);
  }

  /** Going up byte by byte, from the start of the controller page. */
  lemma {:induction false} SameByte(md: HostMap, ctrlPage: nat, list: seq<nat>, o: nat)
    requires Populated(md, ctrlPage, list) && Joined(md, ctrlPage) && o < md.pageSize * |md.ioaddrs|
    ensures Lap(o, ctrlPage) < |list| && CtrlByte(list, ctrlPage, o) == HostByte(md, o)
  {
    hide HostByte;
    assert |list| * ctrlPage == ctrlPage * |list|;
    InRange(o, ctrlPage, |list|);
    Decompose(o, ctrlPage);
    if Slot(o, ctrlPage) != 0 {
      SameByte(md, ctrlPage, list, o - 1);
      CtrlNext(list, ctrlPage, o);
      HostNext(md, o - 1);
      if Slot(o, md.pageSize) == 0 {
        var h := Lap(o, md.pageSize);
        assert o == h * md.pageSize;
        assert md.ioaddrs[h] == md.ioaddrs[h - 1] + md.pageSize;
      }
    }
  }

  /** Equality on every byte forces the join at every interior boundary. */
  lemma JoinForced(md: HostMap, ctrlPage: nat, list: seq<nat>, h: nat)
    requires Populated(md, ctrlPage, list) && SameBytes(md, ctrlPage, list)
    requires 1 <= h < |md.ioaddrs| && Slot(h * md.pageSize, ctrlPage) != 0
    ensures md.ioaddrs[h] == md.ioaddrs[h - 1] + md.pageSize
  {
    hide Slot, Lap;
    var o := h * md.pageSize;
    Boundary(md, h);
    assert CtrlByte(list, ctrlPage, o) == HostByte(md, o);
    CtrlNext(list, ctrlPage, o);
    assert CtrlByte(list, ctrlPage, o - 1) == HostByte(md, o - 1);
    HostNext(md, o - 1);
  }

  /** Where host page h begins. */
  lemma Boundary(md: HostMap, h: nat)
    requires md.pageSize > 0 && 1 <= h < |md.ioaddrs|
    ensures 1 <= h * md.pageSize < md.pageSize * |md.ioaddrs|
    ensures Lap(h * md.pageSize, md.pageSize) == h && Slot(h * md.pageSize, md.pageSize) == 0
  {
    assert md.pageSize * |md.ioaddrs| == h * md.pageSize + (|md.ioaddrs| - h) * md.pageSize;
    SmallMultiple(|md.ioaddrs| - h, md.pageSize);
    SmallMultiple(h, md.pageSize);
    Digits(h, md.pageSize, 0);
  }

  /**
   * The re-paged list describes the same bytes as the host mapping exactly when host pages that
   * share a controller page are adjacent on the bus.
   */
  lemma RepagingExact(md: HostMap, ctrlPage: nat, list: seq<nat>)
    requires Populated(md, ctrlPage, list)
    ensures SameBytes(md, ctrlPage, list) <==> Joined(md, ctrlPage)
  {
    if Joined(md, ctrlPage) {
      forall o: nat | o < md.pageSize * |md.ioaddrs|
        ensures Lap(o, ctrlPage) < |list| && CtrlByte(list, ctrlPage, o) == HostByte(md, o)
      {
        SameByte(md, ctrlPage, list, o);
      }
    }
    if SameBytes(md, ctrlPage, list) {
      forall h | 1 <= h < |md.ioaddrs| && Slot(h * md.pageSize, ctrlPage) != 0
        ensures md.ioaddrs[h] == md.ioaddrs[h - 1] + md.pageSize
      {
        JoinForced(md, ctrlPage, list, h);
      }
    }
  }

  /** In particular controller pages that divide host pages never straddle one. */
  lemma DividingPagesJoin(md: HostMap, ctrlPage: nat, q: nat)
    requires ctrlPage > 0 && md.pageSize == q * ctrlPage
    ensures Joined(md, ctrlPage)
  {
    forall h: nat | 1 <= h < |md.ioaddrs| ensures Slot(h * md.pageSize, ctrlPage) == 0 {
      assert h * md.pageSize == (h * q) * ctrlPage + 0;
      Digits(h * q, ctrlPage, 0);
    }
  }
}
