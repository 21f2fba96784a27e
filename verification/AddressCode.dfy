/**
 * The addresses that the Flow protocol generates. An address is a word of the linear code whose generator rows
 * are given here, changed by the word of its chain (address.go of the SDK that src/parser_tx.c names). The rows
 * say nothing of parity columns: they and the check describe one code independently.
 */
module AddressCode {
  import opened Bytes
  import opened Errors
  import opened BitString
  import opened Address
  import opened AddressSyndromes

  const INDEX_BITS := 45

  /** The rows of the generator matrix. */
  function Row(k: nat): (r: nat)
    requires k < INDEX_BITS
    ensures IsWord(r)
  {
    if k == 0 then 0xe467b9dd11fa00df else if k == 1 then 0xf233dcee88fe0abe else if k == 2 then 0xf919ee77447b7497
    else if k == 3 then 0xfc8cf73ba23a260d else if k == 4 then 0xfe467b9dd11ee2a1
    else if k == 5 then 0xff233dcee888d807 else if k == 6 then 0xff919ee774476ce6
    else if k == 7 then 0x7fc8cf73ba231d10 else if k == 8 then 0x3fe467b9dd11b183
    else if k == 9 then 0x1ff233dcee8f96d6 else if k == 10 then 0x8ff919ee774757ba
    else if k == 11 then 0x47fc8cf73ba2b331 else if k == 12 then 0x23fe467b9dd27f6c
    else if k == 13 then 0x11ff233dceee8e82 else if k == 14 then 0x88ff919ee775dd8f
    else if k == 15 then 0x447fc8cf73b905e4 else if k == 16 then 0xa23fe467b9de0d83
    else if k == 17 then 0xd11ff233dce8d5a7 else if k == 18 then 0xe88ff919ee73c38a
    else if k == 19 then 0x7447fc8cf73f171f else if k == 20 then 0xba23fe467b9dcb2b
    else if k == 21 then 0xdd11ff233dcb0cb4 else if k == 22 then 0xee88ff919ee26c5d
    else if k == 23 then 0x77447fc8cf775dd3 else if k == 24 then 0x3ba23fe467b9b5a1
    else if k == 25 then 0x9dd11ff233d9117a else if k == 26 then 0xcee88ff919efa640
    else if k == 27 then 0xe77447fc8cf3e297 else if k == 28 then 0x73ba23fe467fabd2
    else if k == 29 then 0xb9dd11ff233fb16c else if k == 30 then 0xdcee88ff919adde7
    else if k == 31 then 0xee77447fc8ceb196 else if k == 32 then 0xf73ba23fe4621cd0
    else if k == 33 then 0x7b9dd11ff2379ac3 else if k == 34 then 0x3dcee88ff91df46c
    else if k == 35 then 0x9ee77447fc88e702 else if k == 36 then 0xcf73ba23fe4131b6
    else if k == 37 then 0x67b9dd11ff240f9a else if k == 38 then 0x33dcee88ff90f9e0
    else if k == 39 then 0x19ee77447fcff4e3 else if k == 40 then 0x8cf73ba23fe64091
    else if k == 41 then 0x467b9dd11ff115c7 else if k == 42 then 0x233dcee88ffdb735
    else if k == 43 then 0x919ee77447fe2309 else 0xc8cf73ba23fdc736
  }

  /** The code word of the bits of an index, which select rows from row `k` on. */
  function Generated(index: nat, k: nat): (r: nat)
    requires k <= INDEX_BITS
    ensures IsWord(r)
    decreases INDEX_BITS - k
  {
    if k == INDEX_BITS then 0
    else
      XorWord(if index % 2 == 1 then Row(k) else 0, Generated(index / 2, k + 1));
      Xor(if index % 2 == 1 then Row(k) else 0, Generated(index / 2, k + 1))
  }

  lemma Row0()
    ensures Syndrome(0xe467b9dd11fa00df) == 0
  {
    hide Packed, Group, Syndrome;
    LowTables();
    HighTables();
    SyndromeIs(0xe467b9dd11fa00df, 0xe467b9dd, 14, 4, 6, 7, 11, 9, 13, 13, 0x11fa00df, 1, 1, 15, 10, 0, 0, 13, 15,
      0x143b2, 0);
  }

  lemma Row1()
    ensures Syndrome(0xf233dcee88fe0abe) == 0
  {
    hide Packed, Group, Syndrome;
    LowTables();
    HighTables();
    SyndromeIs(0xf233dcee88fe0abe, 0xf233dcee, 15, 2, 3, 3, 13, 12, 14, 14, 0x88fe0abe, 8, 8, 15, 14, 0, 10, 11, 14,
      0x09688, 0);
  }

  lemma Row2()
    ensures Syndrome(0xf919ee77447b7497) == 0
  {
    hide Packed, Group, Syndrome;
    LowTables();
    HighTables();
    SyndromeIs(0xf919ee77447b7497, 0xf919ee77, 15, 9, 1, 9, 14, 14, 7, 7, 0x447b7497, 4, 4, 7, 11, 7, 4, 9, 7,
      0x1dae0, 0);
  }

  lemma Row3()
    ensures Syndrome(0xfc8cf73ba23a260d) == 0
  {
    hide Packed, Group, Syndrome;
    LowTables();
    HighTables();
    SyndromeIs(0xfc8cf73ba23a260d, 0xfc8cf73b, 15, 12, 8, 12, 15, 7, 3, 11, 0xa23a260d, 10, 2, 3, 10, 2, 6, 0, 13,
      0x15d3d, 0);
  }

  lemma Row4()
    ensures Syndrome(0xfe467b9dd11ee2a1) == 0
  {
    hide Packed, Group, Syndrome;
    LowTables();
    HighTables();
    SyndromeIs(0xfe467b9dd11ee2a1, 0xfe467b9d, 15, 14, 4, 6, 7, 11, 9, 13, 0xd11ee2a1, 13, 1, 1, 14, 14, 2, 10, 1,
      0x193a6, 0);
  }

  lemma Row5()
    ensures Syndrome(0xff233dcee888d807) == 0
  {
    hide Packed, Group, Syndrome;
    LowTables();
    HighTables();
    SyndromeIs(0xff233dcee888d807, 0xff233dce, 15, 15, 2, 3, 3, 13, 12, 14, 0xe888d807, 14, 8, 8, 8, 13, 8, 0, 7,
      0x00465, 0);
  }

  lemma Row6()
    ensures Syndrome(0xff919ee774476ce6) == 0
  {
    hide Packed, Group, Syndrome;
    LowTables();
    HighTables();
    SyndromeIs(0xff919ee774476ce6, 0xff919ee7, 15, 15, 9, 1, 9, 14, 14, 7, 0x74476ce6, 7, 4, 4, 7, 6, 12, 14, 6,
      0x17f81, 0);
  }

  lemma Row7()
    ensures Syndrome(0x7fc8cf73ba231d10) == 0
  {
    hide Packed, Group, Syndrome;
    LowTables();
    HighTables();
    SyndromeIs(0x7fc8cf73ba231d10, 0x7fc8cf73, 7, 15, 12, 8, 12, 15, 7, 3, 0xba231d10, 11, 10, 2, 3, 1, 13, 1, 0,
      0x10ffe, 0);
  }

  lemma Row8()
    ensures Syndrome(0x3fe467b9dd11b183) == 0
  {
    hide Packed, Group, Syndrome;
    LowTables();
    HighTables();
    SyndromeIs(0x3fe467b9dd11b183, 0x3fe467b9, 3, 15, 14, 4, 6, 7, 11, 9, 0xdd11b183, 13, 13, 1, 1, 11, 1, 8, 3,
      0x1eb46, 0);
  }

  lemma Row9()
    ensures Syndrome(0x1ff233dcee8f96d6) == 0
  {
    hide Packed, Group, Syndrome;
    LowTables();
    HighTables();
    SyndromeIs(0x1ff233dcee8f96d6, 0x1ff233dc, 1, 15, 15, 2, 3, 3, 13, 12, 0xee8f96d6, 14, 14, 8, 15, 9, 6, 13, 6,
      0x1602b, 0);
  }

  lemma Row10()
    ensures Syndrome(0x8ff919ee774757ba) == 0
  {
    hide Packed, Group, Syndrome;
    LowTables();
    HighTables();
    SyndromeIs(0x8ff919ee774757ba, 0x8ff919ee, 8, 15, 15, 9, 1, 9, 14, 14, 0x774757ba, 7, 7, 4, 7, 5, 7, 11, 10,
      0x17727, 0);
  }

  lemma Row11()
    ensures Syndrome(0x47fc8cf73ba2b331) == 0
  {
    hide Packed, Group, Syndrome;
    LowTables();
    HighTables();
    SyndromeIs(0x47fc8cf73ba2b331, 0x47fc8cf7, 4, 7, 15, 12, 8, 12, 15, 7, 0x3ba2b331, 3, 11, 10, 2, 11, 3, 3, 1,
      0x17eb0, 0);
  }

  lemma Row12()
    ensures Syndrome(0x23fe467b9dd27f6c) == 0
  {
    hide Packed, Group, Syndrome;
    LowTables();
    HighTables();
    SyndromeIs(0x23fe467b9dd27f6c, 0x23fe467b, 2, 3, 15, 14, 4, 6, 7, 11, 0x9dd27f6c, 9, 13, 13, 2, 7, 15, 6, 12,
      0x1c0d5, 0);
  }

  lemma Row13()
    ensures Syndrome(0x11ff233dceee8e82) == 0
  {
    hide Packed, Group, Syndrome;
    LowTables();
    HighTables();
    SyndromeIs(0x11ff233dceee8e82, 0x11ff233d, 1, 1, 15, 15, 2, 3, 3, 13, 0xceee8e82, 12, 14, 14, 14, 8, 14, 8, 2,
      0x18e7b, 0);
  }

  lemma Row14()
    ensures Syndrome(0x88ff919ee775dd8f) == 0
  {
    hide Packed, Group, Syndrome;
    LowTables();
    HighTables();
    SyndromeIs(0x88ff919ee775dd8f, 0x88ff919e, 8, 8, 15, 15, 9, 1, 9, 14, 0xe775dd8f, 14, 7, 7, 5, 13, 13, 8, 15,
      0x05bd6, 0);
  }

  lemma Row15()
    ensures Syndrome(0x447fc8cf73b905e4) == 0
  {
    hide Packed, Group, Syndrome;
    LowTables();
    HighTables();
    SyndromeIs(0x447fc8cf73b905e4, 0x447fc8cf, 4, 4, 7, 15, 12, 8, 12, 15, 0x73b905e4, 7, 3, 11, 9, 0, 5, 14, 4,
      0x06639, 0);
  }

  lemma Row16()
    ensures Syndrome(0xa23fe467b9de0d83) == 0
  {
    hide Packed, Group, Syndrome;
    LowTables();
    HighTables();
    SyndromeIs(0xa23fe467b9de0d83, 0xa23fe467, 10, 2, 3, 15, 14, 4, 6, 7, 0xb9de0d83, 11, 9, 13, 14, 0, 13, 8, 3,
      0x15c19, 0);
  }

  lemma Row17()
    ensures Syndrome(0xd11ff233dce8d5a7) == 0
  {
    hide Packed, Group, Syndrome;
    LowTables();
    HighTables();
    SyndromeIs(0xd11ff233dce8d5a7, 0xd11ff233, 13, 1, 1, 15, 15, 2, 3, 3, 0xdce8d5a7, 13, 12, 14, 8, 13, 5, 10, 7,
      0x1d547, 0);
  }

  lemma Row18()
    ensures Syndrome(0xe88ff919ee73c38a) == 0
  {
    hide Packed, Group, Syndrome;
    LowTables();
    HighTables();
    SyndromeIs(0xe88ff919ee73c38a, 0xe88ff919, 14, 8, 8, 15, 15, 9, 1, 9, 0xee73c38a, 14, 14, 7, 3, 12, 3, 8, 10,
      0x045f9, 0);
  }

  lemma Row19()
    ensures Syndrome(0x7447fc8cf73f171f) == 0
  {
    hide Packed, Group, Syndrome;
    LowTables();
    HighTables();
    SyndromeIs(0x7447fc8cf73f171f, 0x7447fc8c, 7, 4, 4, 7, 15, 12, 8, 12, 0xf73f171f, 15, 7, 3, 15, 1, 7, 1, 15,
      0x1b2c8, 0);
  }

  lemma Row20()
    ensures Syndrome(0xba23fe467b9dcb2b) == 0
  {
    hide Packed, Group, Syndrome;
    LowTables();
    HighTables();
    SyndromeIs(0xba23fe467b9dcb2b, 0xba23fe46, 11, 10, 2, 3, 15, 14, 4, 6, 0x7b9dcb2b, 7, 11, 9, 13, 12, 11, 2, 11,
      0x09358, 0);
  }

  lemma Row21()
    ensures Syndrome(0xdd11ff233dcb0cb4) == 0
  {
    hide Packed, Group, Syndrome;
    LowTables();
    HighTables();
    SyndromeIs(0xdd11ff233dcb0cb4, 0xdd11ff23, 13, 13, 1, 1, 15, 15, 2, 3, 0x3dcb0cb4, 3, 13, 12, 11, 0, 12, 11, 4,
      0x1c043, 0);
  }

  lemma Row22()
    ensures Syndrome(0xee88ff919ee26c5d) == 0
  {
    hide Packed, Group, Syndrome;
    LowTables();
    HighTables();
    SyndromeIs(0xee88ff919ee26c5d, 0xee88ff91, 14, 14, 8, 8, 15, 15, 9, 1, 0x9ee26c5d, 9, 14, 14, 2, 6, 12, 5, 13,
      0x199ab, 0);
  }

  lemma Row23()
    ensures Syndrome(0x77447fc8cf775dd3) == 0
  {
    hide Packed, Group, Syndrome;
    LowTables();
    HighTables();
    SyndromeIs(0x77447fc8cf775dd3, 0x77447fc8, 7, 7, 4, 4, 7, 15, 12, 8, 0xcf775dd3, 12, 15, 7, 7, 5, 13, 13, 3,
      0x11e6b, 0);
  }

  lemma Row24()
    ensures Syndrome(0x3ba23fe467b9b5a1) == 0
  {
    hide Packed, Group, Syndrome;
    LowTables();
    HighTables();
    SyndromeIs(0x3ba23fe467b9b5a1, 0x3ba23fe4, 3, 11, 10, 2, 3, 15, 14, 4, 0x67b9b5a1, 6, 7, 11, 9, 11, 5, 10, 1,
      0x0fcfa, 0);
  }

  lemma Row25()
    ensures Syndrome(0x9dd11ff233d9117a) == 0
  {
    hide Packed, Group, Syndrome;
    LowTables();
    HighTables();
    SyndromeIs(0x9dd11ff233d9117a, 0x9dd11ff2, 9, 13, 13, 1, 1, 15, 15, 2, 0x33d9117a, 3, 3, 13, 9, 1, 1, 7, 10,
      0x1b509, 0);
  }

  lemma Row26()
    ensures Syndrome(0xcee88ff919efa640) == 0
  {
    hide Packed, Group, Syndrome;
    LowTables();
    HighTables();
    SyndromeIs(0xcee88ff919efa640, 0xcee88ff9, 12, 14, 14, 8, 8, 15, 15, 9, 0x19efa640, 1, 9, 14, 15, 10, 6, 4, 0,
      0x0a736, 0);
  }

  lemma Row27()
    ensures Syndrome(0xe77447fc8cf3e297) == 0
  {
    hide Packed, Group, Syndrome;
    LowTables();
    HighTables();
    SyndromeIs(0xe77447fc8cf3e297, 0xe77447fc, 14, 7, 7, 4, 4, 7, 15, 12, 0x8cf3e297, 8, 12, 15, 3, 14, 2, 9, 7,
      0x07fe2, 0);
  }

  lemma Row28()
    ensures Syndrome(0x73ba23fe467fabd2) == 0
  {
    hide Packed, Group, Syndrome;
    LowTables();
    HighTables();
    SyndromeIs(0x73ba23fe467fabd2, 0x73ba23fe, 7, 3, 11, 10, 2, 3, 15, 14, 0x467fabd2, 4, 6, 7, 15, 10, 11, 13, 2,
      0x11cf4, 0);
  }

  lemma Row29()
    ensures Syndrome(0xb9dd11ff233fb16c) == 0
  {
    hide Packed, Group, Syndrome;
    LowTables();
    HighTables();
    SyndromeIs(0xb9dd11ff233fb16c, 0xb9dd11ff, 11, 9, 13, 13, 1, 1, 15, 15, 0x233fb16c, 2, 3, 3, 15, 11, 1, 6, 12,
      0x126ce, 0);
  }

  lemma Row30()
    ensures Syndrome(0xdcee88ff919adde7) == 0
  {
    hide Packed, Group, Syndrome;
    LowTables();
    HighTables();
    SyndromeIs(0xdcee88ff919adde7, 0xdcee88ff, 13, 12, 14, 14, 8, 8, 15, 15, 0x919adde7, 9, 1, 9, 10, 13, 13, 14, 7,
      0x041d7, 0);
  }

  lemma Row31()
    ensures Syndrome(0xee77447fc8ceb196) == 0
  {
    hide Packed, Group, Syndrome;
    LowTables();
    HighTables();
    SyndromeIs(0xee77447fc8ceb196, 0xee77447f, 14, 14, 7, 7, 4, 4, 7, 15, 0xc8ceb196, 12, 8, 12, 14, 11, 1, 9, 6,
      0x18adf, 0);
  }

  lemma Row32()
    ensures Syndrome(0xf73ba23fe4621cd0) == 0
  {
    hide Packed, Group, Syndrome;
    LowTables();
    HighTables();
    SyndromeIs(0xf73ba23fe4621cd0, 0xf73ba23f, 15, 7, 3, 11, 10, 2, 3, 15, 0xe4621cd0, 14, 4, 6, 2, 1, 12, 13, 0,
      0x1c1e9, 0);
  }

  lemma Row33()
    ensures Syndrome(0x7b9dd11ff2379ac3) == 0
  {
    hide Packed, Group, Syndrome;
    LowTables();
    HighTables();
    SyndromeIs(0x7b9dd11ff2379ac3, 0x7b9dd11f, 7, 11, 9, 13, 13, 1, 1, 15, 0xf2379ac3, 15, 2, 3, 7, 9, 10, 12, 3,
      0x014fc, 0);
  }

  lemma Row34()
    ensures Syndrome(0x3dcee88ff91df46c) == 0
  {
    hide Packed, Group, Syndrome;
    LowTables();
    HighTables();
    SyndromeIs(0x3dcee88ff91df46c, 0x3dcee88f, 3, 13, 12, 14, 14, 8, 8, 15, 0xf91df46c, 15, 9, 1, 13, 15, 4, 6, 12,
      0x1408a, 0);
  }

  lemma Row35()
    ensures Syndrome(0x9ee77447fc88e702) == 0
  {
    hide Packed, Group, Syndrome;
    LowTables();
    HighTables();
    SyndromeIs(0x9ee77447fc88e702, 0x9ee77447, 9, 14, 14, 7, 7, 4, 4, 7, 0xfc88e702, 15, 12, 8, 8, 14, 7, 0, 2,
      0x011e6, 0);
  }

  lemma Row36()
    ensures Syndrome(0xcf73ba23fe4131b6) == 0
  {
    hide Packed, Group, Syndrome;
    LowTables();
    HighTables();
    SyndromeIs(0xcf73ba23fe4131b6, 0xcf73ba23, 12, 15, 7, 3, 11, 10, 2, 3, 0xfe4131b6, 15, 14, 4, 1, 3, 1, 11, 6,
      0x0d738, 0);
  }

  lemma Row37()
    ensures Syndrome(0x67b9dd11ff240f9a) == 0
  {
    hide Packed, Group, Syndrome;
    LowTables();
    HighTables();
    SyndromeIs(0x67b9dd11ff240f9a, 0x67b9dd11, 6, 7, 11, 9, 13, 13, 1, 1, 0xff240f9a, 15, 15, 2, 4, 0, 15, 9, 10,
      0x1dadb, 0);
  }

  lemma Row38()
    ensures Syndrome(0x33dcee88ff90f9e0) == 0
  {
    hide Packed, Group, Syndrome;
    LowTables();
    HighTables();
    SyndromeIs(0x33dcee88ff90f9e0, 0x33dcee88, 3, 3, 13, 12, 14, 14, 8, 8, 0xff90f9e0, 15, 15, 9, 0, 15, 9, 14, 0,
      0x166e9, 0);
  }

  lemma Row39()
    ensures Syndrome(0x19ee77447fcff4e3) == 0
  {
    hide Packed, Group, Syndrome;
    LowTables();
    HighTables();
    SyndromeIs(0x19ee77447fcff4e3, 0x19ee7744, 1, 9, 14, 14, 7, 7, 4, 4, 0x7fcff4e3, 7, 15, 12, 15, 15, 4, 14, 3,
      0x0ff8f, 0);
  }

  lemma Row40()
    ensures Syndrome(0x8cf73ba23fe64091) == 0
  {
    hide Packed, Group, Syndrome;
    LowTables();
    HighTables();
    SyndromeIs(0x8cf73ba23fe64091, 0x8cf73ba2, 8, 12, 15, 7, 3, 11, 10, 2, 0x3fe64091, 3, 15, 14, 6, 4, 0, 9, 1,
      0x1b695, 0);
  }

  lemma Row41()
    ensures Syndrome(0x467b9dd11ff115c7) == 0
  {
    hide Packed, Group, Syndrome;
    LowTables();
    HighTables();
    SyndromeIs(0x467b9dd11ff115c7, 0x467b9dd1, 4, 6, 7, 11, 9, 13, 13, 1, 0x1ff115c7, 1, 15, 15, 1, 1, 5, 12, 7,
      0x16439, 0);
  }

  lemma Row42()
    ensures Syndrome(0x233dcee88ffdb735) == 0
  {
    hide Packed, Group, Syndrome;
    LowTables();
    HighTables();
    SyndromeIs(0x233dcee88ffdb735, 0x233dcee8, 2, 3, 3, 13, 12, 14, 14, 8, 0x8ffdb735, 8, 15, 15, 13, 11, 7, 3, 5,
      0x12b37, 0);
  }

  lemma Row43()
    ensures Syndrome(0x919ee77447fe2309) == 0
  {
    hide Packed, Group, Syndrome;
    LowTables();
    HighTables();
    SyndromeIs(0x919ee77447fe2309, 0x919ee774, 9, 1, 9, 14, 14, 7, 7, 4, 0x47fe2309, 4, 7, 15, 14, 2, 3, 0, 9,
      0x08d79, 0);
  }

  lemma Row44()
    ensures Syndrome(0xc8cf73ba23fdc736) == 0
  {
    hide Packed, Group, Syndrome;
    LowTables();
    HighTables();
    SyndromeIs(0xc8cf73ba23fdc736, 0xc8cf73ba, 12, 8, 12, 15, 7, 3, 11, 10, 0x23fdc736, 2, 3, 15, 13, 12, 7, 3, 6,
      0x16b22, 0);
  }

  lemma RowsAreCodeWords(k: nat)
    requires k < INDEX_BITS
    ensures Syndrome(Row(k)) == 0
  {
    hide Syndrome;
    Row0();
    Row1();
    Row2();
    Row3();
    Row4();
    Row5();
    Row6();
    Row7();
    Row8();
    Row9();
    Row10();
    Row11();
    Row12();
    Row13();
    Row14();
    Row15();
    Row16();
    Row17();
    Row18();
    Row19();
    Row20();
    Row21();
    Row22();
    Row23();
    Row24();
    Row25();
    Row26();
    Row27();
    Row28();
    Row29();
    Row30();
    Row31();
    Row32();
    Row33();
    Row34();
    Row35();
    Row36();
    Row37();
    Row38();
    Row39();
    Row40();
    Row41();
    Row42();
    Row43();
    Row44();
  }

  /** Every word that the rows generate is a code word of the check. */
  lemma {:induction false} GeneratedIsCodeWord(index: nat, k: nat)
    requires k <= INDEX_BITS
    ensures Syndrome(Generated(index, k)) == 0
    decreases INDEX_BITS - k
  {
    hide Row, Parity, XorLow;
    ZeroSyndrome();
    if k < INDEX_BITS {
      var a, b := if index % 2 == 1 then Row(k) else 0, Generated(index / 2, k + 1);
      RowsAreCodeWords(k);
      GeneratedIsCodeWord(index / 2, k + 1);
      ParityLinear(a, b, 0);
      XorUnit(0);
    }
  }

  /**
   * The address that the protocol generates for an index on a chain is valid on this chain, and on no other,
   * unless the index selects no row at all and the address is the word of the chain.
   */
  lemma GeneratedIsAccepted(c: Chain, d: Chain, index: nat)
    ensures IsWord(CodeWord(c)) && IsWord(Xor(Generated(index, 0), CodeWord(c)))
    ensures IsValid(CodeWord(d), Xor(Generated(index, 0), CodeWord(c))) <==> d == c && Generated(index, 0) != 0
  {
    hide Syndrome, XorLow, Generated, Shr, IsValid;
    var w, chain := Generated(index, 0), CodeWord(c);
    var address := Xor(w, chain);
    XorWord(w, chain);
    XorBack(w, chain);
    GeneratedIsCodeWord(index, 0);
    assert IsValid(chain, address) <==> w != 0 by { ValidIs(chain, address); }
    if d != c {
      if w != 0 { ChainsAreDisjoint(c, d, address); } else { ChainWordRefused(c, d, address); }
    }
  }

  lemma ValidIs(chain: nat, address: nat)
    ensures IsValid(chain, address) <==> Xor(address, chain) != 0 && Syndrome(Xor(address, chain)) == 0
  {
  }

  lemma XorBack(w: nat, chain: nat)
    requires IsWord(w) && IsWord(chain)
    ensures Xor(Xor(w, chain), chain) == w
  {
    hide XorLow;
    XorPairs(w, chain, 0, chain);
    XorUnit(w);
    XorUnit(chain);
  }

  /** The word of a chain is not valid on another chain either. */
  lemma ChainWordRefused(c: Chain, d: Chain, address: nat)
    requires c != d && address == Xor(0, CodeWord(c))
    ensures !IsValid(CodeWord(d), address)
  {
    hide Syndrome, Shr, IsValid, Xor;
    XorUnit(CodeWord(c));
    IsValidIff(CodeWord(d), address);
    ChainSyndromes();
    ShrZero(18);
  }

  // ---------------------------------------------------------------- known addresses

  /** Eight bytes, the highest first. */
  function Joined(a: nat, b: nat, c: nat, d: nat, e: nat, f: nat, g: nat, h: nat): nat {
    256 * (256 * (256 * (256 * (256 * (256 * (256 * a + b) + c) + d) + e) + f) + g) + h
  }

  lemma EightBytes(s: bytes)
    requires |s| == 8
    ensures FromBigEndian(s)
         == Joined(s[0], s[1], s[2], s[3], s[4], s[5], s[6], s[7])
  {
    hide FromBigEndian;
    NoAddress(s);
    assert s[..8] == s;
    AddressStep(s, 0);
    AddressStep(s, 1);
    AddressStep(s, 2);
    AddressStep(s, 3);
    AddressStep(s, 4);
    AddressStep(s, 5);
    AddressStep(s, 6);
    AddressStep(s, 7);
  }

  lemma TestnetSyndrome()
    ensures Packed(Syndrome(TESTNET)) == 0x7ca49
  {
    hide Packed, Group, Syndrome;
    LowTables();
    HighTables();
    SyndromeIs(0x6834ba37b3980209, 0x6834ba37, 6, 8, 3, 4, 11, 10, 3, 7, 0xb3980209, 11, 3, 9, 8, 0, 2, 0, 9,
      0x0a241, 0x7ca49);
  }

  lemma EmulatorSyndrome()
    ensures Packed(Syndrome(EMULATOR)) == 0x66dea
  {
    hide Packed, Group, Syndrome;
    LowTables();
    HighTables();
    SyndromeIs(0x1cb159857af02018, 0x1cb15985, 1, 12, 11, 1, 5, 9, 8, 5, 0x7af02018, 7, 10, 15, 0, 2, 0, 1, 8,
      0x014c3, 0x66dea);
  }

  /** The address of index 1 on the main chain, the row of the generator itself. */
  lemma FirstAddressOnMainnet()
    ensures ChainOf([0xe4, 0x67, 0xb9, 0xdd, 0x11, 0xfa, 0x00, 0xdf]) == Found(Mainnet)
  {
    hide Packed, Group, Syndrome, IsValid, FromBigEndian, ChainOf;
    LowTables();
    HighTables();
    SyndromeIs(0xe467b9dd11fa00df, 0xe467b9dd, 14, 4, 6, 7, 11, 9, 13, 13, 0x11fa00df, 1, 1, 15, 10, 0, 0, 13, 15,
      0x143b2, 0x00000);
    ZeroSyndrome();
    KnownPayer([0xe4, 0x67, 0xb9, 0xdd, 0x11, 0xfa, 0x00, 0xdf], 0xe467b9dd11fa00df, Mainnet);
  }

  /** Another address of the main chain. */
  lemma AnotherAddressOnMainnet()
    ensures ChainOf([0xf1, 0x9c, 0x16, 0x1b, 0xc2, 0x4c, 0xf4, 0xb4]) == Found(Mainnet)
  {
    hide Packed, Group, Syndrome, IsValid, FromBigEndian, ChainOf;
    LowTables();
    HighTables();
    SyndromeIs(0xf19c161bc24cf4b4, 0xf19c161b, 15, 1, 9, 12, 1, 6, 1, 11, 0xc24cf4b4, 12, 2, 4, 12, 15, 4, 11, 4,
      0x1cfd0, 0x00000);
    ZeroSyndrome();
    KnownPayer([0xf1, 0x9c, 0x16, 0x1b, 0xc2, 0x4c, 0xf4, 0xb4], 0xf19c161bc24cf4b4, Mainnet);
  }

  /** The address of index 1 on the test chain. */
  lemma FirstAddressOnTestnet()
    ensures ChainOf([0x8c, 0x53, 0x03, 0xea, 0xa2, 0x62, 0x02, 0xd6]) == Found(Testnet)
  {
    hide Packed, Group, Syndrome, IsValid, FromBigEndian, ChainOf;
    LowTables();
    HighTables();
    SyndromeIs(0x8c5303eaa26202d6, 0x8c5303ea, 8, 12, 5, 3, 0, 3, 14, 10, 0xa26202d6, 10, 2, 6, 2, 0, 2, 13, 6,
      0x1e1f3, 0x7ca49);
    TestnetSyndrome();
    SameSyndrome(0x8c5303eaa26202d6, TESTNET);
    KnownPayer([0x8c, 0x53, 0x03, 0xea, 0xa2, 0x62, 0x02, 0xd6], 0x8c5303eaa26202d6, Testnet);
  }

  /** The address of index 1 on the emulator. */
  lemma FirstAddressOnEmulator()
    ensures ChainOf([0xf8, 0xd6, 0xe0, 0x58, 0x6b, 0x0a, 0x20, 0xc7]) == Found(Emulator)
  {
    hide Packed, Group, Syndrome, IsValid, FromBigEndian, ChainOf;
    LowTables();
    HighTables();
    SyndromeIs(0xf8d6e0586b0a20c7, 0xf8d6e058, 15, 8, 13, 6, 14, 0, 5, 8, 0x6b0a20c7, 6, 11, 0, 10, 2, 0, 12, 7,
      0x15771, 0x66dea);
    EmulatorSyndrome();
    SameSyndrome(0xf8d6e0586b0a20c7, EMULATOR);
    KnownPayer([0xf8, 0xd6, 0xe0, 0x58, 0x6b, 0x0a, 0x20, 0xc7], 0xf8d6e0586b0a20c7, Emulator);
  }

  lemma KnownPayer(payer: bytes, address: nat, c: Chain)
    requires |payer| == 8 && IsWord(address) && address != CodeWord(c) && Syndrome(address) == Syndrome(CodeWord(c))
    requires address == Joined(payer[0], payer[1], payer[2], payer[3], payer[4], payer[5], payer[6], payer[7])
    ensures ChainOf(payer) == Found(c)
  {
    hide Syndrome, IsValid, FromBigEndian, ChainOf;
    EightBytes(payer);
    IsValidIff(CodeWord(c), address);
    ChainOfIff(payer, c);
  }

  /** The words of the chains themselves are not addresses. */
  lemma ChainWordsAreRefused()
    ensures ChainOf([0, 0, 0, 0, 0, 0, 0, 0]) == NotFound(UnexpectedValue)
    ensures ChainOf([0x68, 0x34, 0xba, 0x37, 0xb3, 0x98, 0x02, 0x09]) == NotFound(UnexpectedValue)
    ensures ChainOf([0x1c, 0xb1, 0x59, 0x85, 0x7a, 0xf0, 0x20, 0x18]) == NotFound(UnexpectedValue)
  {
    hide FromBigEndian, ChainOf;
    RefusedPayer([0, 0, 0, 0, 0, 0, 0, 0], 0, Mainnet);
    RefusedPayer([0x68, 0x34, 0xba, 0x37, 0xb3, 0x98, 0x02, 0x09], 0x6834ba37b3980209, Testnet);
    RefusedPayer([0x1c, 0xb1, 0x59, 0x85, 0x7a, 0xf0, 0x20, 0x18], 0x1cb159857af02018, Emulator);
  }

  lemma RefusedPayer(payer: bytes, address: nat, c: Chain)
    requires |payer| == 8 && address == CodeWord(c)
    requires address == Joined(payer[0], payer[1], payer[2], payer[3], payer[4], payer[5], payer[6], payer[7])
    ensures ChainOf(payer) == NotFound(UnexpectedValue)
  {
    hide Syndrome, IsValid, FromBigEndian, Xor;
    EightBytes(payer);
    IsValidIff(CodeWord(c), address);
    XorUnit(address);
    if c != Mainnet { ChainWordRefused(c, Mainnet, address); }
    if c != Testnet { ChainWordRefused(c, Testnet, address); }
    if c != Emulator { ChainWordRefused(c, Emulator, address); }
  }
}
