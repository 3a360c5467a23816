/** Samples of the stored forms: the bytes of numbers, items, conditions and nodes, and the rows of a backpack, spelled
  out.  A reader and a writer that agree with each other could still agree on another form. */
module Layouts {
  import opened Wrappers
  import opened PropStreams
  import Items = ItemCodec
  import Maps = MapItemCodec
  import Rows = RowCodec
  import Conditions = ConditionCodec
  import Otb = OtbLoader

  // ---- numbers ----------------------------------------------------------------------------------

  /** Byte `i` of a number is the digit of weight 256 to the power of `i`. */
  lemma {:induction false} ByteAt(n: nat, v: nat, i: nat)
    requires i < n
    ensures LittleEndian(n, v)[i] == (v / Pow256(i)) % 256
  {
    if i == 0 {
      assert Pow256(0) == 1;
    } else {
      ByteAt(n - 1, v / 256, i - 1);
      Quotients(v, 256, Pow256(i - 1));
    }
  }

  lemma {:induction false} Quotients(v: nat, a: nat, b: nat)
    requires 0 < a && 0 < b
    ensures 0 < a * b && v / a / b == v / (a * b)
  {
    var x, q, r := v / a, v / a / b, v / a % b;
    assert v == a * x + v % a && x == b * q + r && r <= b - 1;
    Regrouped(a, b, q);
    Spread(a, b * q, r);
    Spread(a, b - 1 - r, r + 1);
    NotNegative(a, b - 1 - r);
    Spread(a, r, 1);
    NotNegative(a, r);
    Quotient(v, a * b, q, a * r + v % a);
  }

  lemma {:induction false} Regrouped(a: int, b: int, c: int)
    ensures a * (b * c) == (a * b) * c
  {
  }

  lemma {:induction false} Spread(a: int, x: int, y: int)
    ensures a * (x + y) == a * x + a * y
  {
  }

  lemma {:induction false} NotNegative(a: nat, x: nat)
    ensures 0 <= a * x
  {
  }

  lemma {:induction false} Quotient(v: nat, m: nat, k: int, r: int)
    requires 0 < m && v == m * k + r && 0 <= r < m
    ensures v / m == k
  {
    ModuloUnique(v, m, k, r);
    assert v == m * (v / m) + v % m;
    assert m * (v / m - k) == 0;
    MultipleIsFar(m, v / m - k);
  }

  lemma {:induction false} Bytes1(v: int)
    requires 0 <= v < 0x100
    ensures NumberBytes(1, v) == [v]
  {
    assert Pow256(1) == 256;
  }

  lemma {:induction false} Bytes2(v: int)
    requires 0 <= v < 0x1_0000
    ensures NumberBytes(2, v) == [v % 256, v / 256]
  {
    assert Pow256(1) == 256 && Pow256(2) == 0x1_0000;
    assert LittleEndian(2, v) == [v % 256] + LittleEndian(1, v / 256);
  }

  lemma {:induction false} Bytes4(v: int)
    requires 0 <= v < 0x1_0000
    ensures NumberBytes(4, v) == [v % 256, v / 256, 0, 0]
  {
    assert Pow256(2) == 0x1_0000 && Pow256(3) == 0x100_0000 && Pow256(4) == 0x1_0000_0000;
    assert LittleEndian(4, v) == [v % 256] + ([v / 256] + LittleEndian(2, 0));
    assert LittleEndian(2, 0) == [0] + LittleEndian(1, 0) == [0, 0];
  }

  /** Negative numbers are in two's complement. */
  lemma {:induction false} MinusOne()
    ensures NumberBytes(4, -1) == [255, 255, 255, 255] && NumberBytes(8, -1) == [255, 255, 255, 255, 255, 255, 255, 255]
  {
    assert Pow256(2) == 0x1_0000 && Pow256(3) == 0x100_0000 && Pow256(4) == 0x1_0000_0000;
    assert Pow256(5) == 0x100_0000_0000 && Pow256(6) == 0x1_0000_0000_0000 && Pow256(7) == 0x100_0000_0000_0000;
    assert Pow256(8) == 0x1_0000_0000_0000_0000;
    AllOnes(4);
    AllOnes(8);
    hide LittleEndian, Pow256;
    assert LittleEndian(4, Pow256(4) - 1) == seq(4, _ => 255) == [255, 255, 255, 255];
    assert LittleEndian(8, Pow256(8) - 1) == seq(8, _ => 255) == [255, 255, 255, 255, 255, 255, 255, 255];
  }

  lemma {:induction false} AllOnes(n: nat)
    ensures LittleEndian(n, Pow256(n) - 1) == seq(n, _ => 255)
  {
    if n > 0 {
      AllOnes(n - 1);
      assert (Pow256(n) - 1) % 256 == 255 && (Pow256(n) - 1) / 256 == Pow256(n - 1) - 1;
    }
  }

  /** A string is its length in two bytes, and itself. */
  lemma {:induction false} TextBytes(s: bytes)
    requires |s| < 256
    ensures StringBytes(s) == [|s|, 0] + s
  {
    Bytes2(|s|);
  }

  // ---- an item ----------------------------------------------------------------------------------

  lemma {:induction false} Joined(s: seq<Items.Attribute>, t: seq<Items.Attribute>)
    ensures Items.AttributesBytes(s + t) == Items.AttributesBytes(s) + Items.AttributesBytes(t)
  {
    if s == [] {
      assert s + t == t;
    } else {
      assert (s + t)[1..] == s[1..] + t;
      Joined(s[1..], t);
    }
  }

  lemma {:induction false} Single(a: Items.Attribute)
    ensures Items.AttributesBytes([a]) == Items.AttributeBytes(a)
  {
    assert [a][1..] == [];
  }

  /** An attribute is its code, followed by a number of its width or by a string. */
  lemma {:induction false} Number1(code: byte, v: nat)
    requires v < 0x100 && Items.WidthOf(code) == 1
    ensures Items.AttributesBytes([Items.Number(code, v)]) == [code, v]
  {
    Single(Items.Number(code, v));
    Bytes1(v);
  }

  lemma {:induction false} Number2(code: byte, v: nat)
    requires v < 0x100 && Items.WidthOf(code) == 2
    ensures Items.AttributesBytes([Items.Number(code, v)]) == [code, v, 0]
  {
    Single(Items.Number(code, v));
    Bytes2(v);
  }

  lemma {:induction false} Number4(code: byte, v: nat)
    requires v < 0x100 && Items.WidthOf(code) == 4
    ensures Items.AttributesBytes([Items.Number(code, v)]) == [code, v, 0, 0, 0]
  {
    Single(Items.Number(code, v));
    Bytes4(v);
  }

  lemma {:induction false} TextIs(code: byte, s: bytes)
    requires |s| < 256
    ensures Items.AttributesBytes([Items.Text(code, s)]) == [code, |s|, 0] + s
  {
    Single(Items.Text(code, s));
    TextBytes(s);
  }

  /** A stack with every attribute that the server stores. */
  function FullItem(): Items.ItemData {
    Items.ItemData(2148, 5, None, Some(30), Some(200), [97, 98], Some(1), [99], [100], Some(60), Some(2),
                   [101], [102], [103], Some(70), Some(1), Some(2), Some(3), Some(4), Some(5), Some(6), Some(7), Some(8),
                   Some([Items.Entry([107], Items.Bool(true)), Items.Entry([110], Items.Int64(-1))]))
  }

  lemma {:induction false} SubTypeSample(types: Items.Types)
    requires types(2148).stackable && !types(2148).fluid && types(2148).moveable
    ensures Items.AttributesBytes(Items.SubTypeAttributes(types, FullItem())) == [15, 5] + [22, 30, 0] + [4, 200, 0]
  {
    hide Items.AttributesBytes, Items.AttributeBytes;
    assert Pow256(1) == 256 && Pow256(2) == 0x1_0000;
    var a, b, c := Items.Number(15, 5), Items.Number(22, 30), Items.Number(4, 200);
    assert Items.SubTypeAttributes(types, FullItem()) == [a] + [b] + [c];
    Number1(15, 5);
    Number2(22, 30);
    Number2(4, 200);
    Joined([a] + [b], [c]);
    Joined([a], [b]);
  }

  lemma {:induction false} WritingSample()
    ensures Items.AttributesBytes(Items.WritingAttributes(FullItem())) ==
      ([6, 2, 0] + [97, 98]) + [18, 1, 0, 0, 0] + ([19, 1, 0] + [99]) + ([7, 1, 0] + [100])
  {
    hide Items.AttributesBytes, Items.AttributeBytes;
    var a, b, c, d := Items.Text(6, [97, 98]), Items.Number(18, 1), Items.Text(19, [99]), Items.Text(7, [100]);
    assert Items.WritingAttributes(FullItem()) == [a] + [b] + [c] + [d];
    TextIs(6, [97, 98]);
    Number4(18, 1);
    TextIs(19, [99]);
    TextIs(7, [100]);
    Joined([a] + [b] + [c], [d]);
    Joined([a] + [b], [c]);
    Joined([a], [b]);
  }

  lemma {:induction false} DecaySample()
    ensures Items.AttributesBytes(Items.DecayAttributes(FullItem())) == [16, 60, 0, 0, 0] + [17, 2]
  {
    hide Items.AttributesBytes, Items.AttributeBytes;
    assert Pow256(1) == 256;
    var a, b := Items.Number(16, 60), Items.Number(17, 2);
    assert Items.DecayAttributes(FullItem()) == [a] + [b];
    Number4(16, 60);
    Number1(17, 2);
    Joined([a], [b]);
  }

  lemma {:induction false} NameSample()
    ensures Items.AttributesBytes(Items.NameAttributes(FullItem())) ==
      ([24, 1, 0] + [101]) + ([25, 1, 0] + [102]) + ([26, 1, 0] + [103])
  {
    hide Items.AttributesBytes, Items.AttributeBytes;
    var a, b, c := Items.Text(24, [101]), Items.Text(25, [102]), Items.Text(26, [103]);
    assert Items.NameAttributes(FullItem()) == [a] + [b] + [c];
    TextIs(24, [101]);
    TextIs(25, [102]);
    TextIs(26, [103]);
    Joined([a] + [b], [c]);
    Joined([a], [b]);
  }

  lemma {:induction false} Present(v: int, code: byte)
    ensures Items.OptNumber(Some(v), code) == [Items.Number(code, v)]
  {
  }

  lemma {:induction false} CombatSample()
    ensures Items.AttributesBytes(Items.CombatAttributes(FullItem())) ==
      [27, 70, 0, 0, 0] + [28, 1, 0, 0, 0] + [38, 2, 0, 0, 0] + [29, 3, 0, 0, 0] + [30, 4, 0, 0, 0]
  {
    hide Items.AttributesBytes, Items.AttributeBytes;
    var a, b, c := Items.Number(27, 70), Items.Number(28, 1), Items.Number(38, 2);
    var d, e := Items.Number(29, 3), Items.Number(30, 4);
    assert Items.CombatAttributes(FullItem()) == [a] + [b] + [c] + [d] + [e] by {
      Present(70, 27);
      Present(1, 28);
      Present(2, 38);
      Present(3, 29);
      Present(4, 30);
      hide Items.OptNumber;
    }
    Number4(27, 70);
    Number4(28, 1);
    Number4(38, 2);
    Number4(29, 3);
    Number4(30, 4);
    Joined([a] + [b] + [c] + [d], [e]);
    Joined([a] + [b] + [c], [d]);
    Joined([a] + [b], [c]);
    Joined([a], [b]);
  }

  lemma {:induction false} CustomSample()
    ensures Items.AttributesBytes([Items.Custom(FullItem().custom.value)]) ==
      ([34] + [2, 0, 0, 0, 0, 0, 0, 0] + (([1, 0] + [107]) + ([4] + [1]) +
       (([1, 0] + [110]) + ([2] + [255, 255, 255, 255, 255, 255, 255, 255]) + [])))
  {
    var es := FullItem().custom.value;
    Single(Items.Custom(es));
    SmallCount(2);
    assert es[1..] == [es[1]] && [es[1]][1..] == [];
    assert Items.EntriesBytes(es) == StringBytes([107]) + Items.ValueBytes(Items.Bool(true)) + Items.EntriesBytes([es[1]]);
    assert Items.EntriesBytes([es[1]]) == StringBytes([110]) + Items.ValueBytes(Items.Int64(-1)) + [];
    TextBytes([107]);
    TextBytes([110]);
    Bytes1(1);
    MinusOne();
  }

  lemma {:induction false} SmallCount(v: nat)
    requires v < 256
    ensures NumberBytes(8, v) == [v, 0, 0, 0, 0, 0, 0, 0]
  {
    assert Pow256(2) == 0x1_0000 && Pow256(3) == 0x100_0000 && Pow256(4) == 0x1_0000_0000;
    assert Pow256(5) == 0x100_0000_0000 && Pow256(6) == 0x1_0000_0000_0000 && Pow256(7) == 0x100_0000_0000_0000;
    assert Pow256(8) == 0x1_0000_0000_0000_0000;
    NoBytes(7);
    assert LittleEndian(7, 0) == seq(7, _ => 0) == [0, 0, 0, 0, 0, 0, 0];
    assert LittleEndian(8, v) == [v] + LittleEndian(7, 0);
  }

  lemma {:induction false} NoBytes(n: nat)
    ensures LittleEndian(n, 0) == seq(n, _ => 0)
  {
    if n > 0 { NoBytes(n - 1); }
  }

  lemma {:induction false} LastSample()
    ensures Items.AttributesBytes(Items.LastAttributes(FullItem())) ==
      [31, 5, 0, 0, 0] + [32, 6] + [33, 7] + [35, 8, 0, 0, 0] +
      ([34] + [2, 0, 0, 0, 0, 0, 0, 0] + (([1, 0] + [107]) + ([4] + [1]) +
       (([1, 0] + [110]) + ([2] + [255, 255, 255, 255, 255, 255, 255, 255]) + [])))
  {
    hide Items.AttributesBytes, Items.AttributeBytes;
    var a, b, c, d := Items.Number(31, 5), Items.Number(32, 6), Items.Number(33, 7), Items.Number(35, 8);
    var e := Items.Custom(FullItem().custom.value);
    assert Items.LastAttributes(FullItem()) == [a] + [b] + [c] + [d] + [e] by {
      Present(5, 31);
      Present(6, 32);
      Present(7, 33);
      Present(8, 35);
      hide Items.OptNumber;
    }
    Number4(31, 5);
    Number1(32, 6);
    Number1(33, 7);
    Number4(35, 8);
    CustomSample();
    Joined([a] + [b] + [c] + [d], [e]);
    Joined([a] + [b] + [c], [d]);
    Joined([a] + [b], [c]);
    Joined([a], [b]);
  }

  /** The bytes of an item with everything that is stored. */
  lemma {:induction false} ItemBytes(types: Items.Types)
    requires types(2148).stackable && !types(2148).fluid && types(2148).moveable
    ensures Items.Serialized(types, FullItem()) ==
      ([15, 5] + [22, 30, 0] + [4, 200, 0]) +
      (([6, 2, 0] + [97, 98]) + [18, 1, 0, 0, 0] + ([19, 1, 0] + [99]) + ([7, 1, 0] + [100])) +
      ([16, 60, 0, 0, 0] + [17, 2]) +
      (([24, 1, 0] + [101]) + ([25, 1, 0] + [102]) + ([26, 1, 0] + [103])) +
      ([27, 70, 0, 0, 0] + [28, 1, 0, 0, 0] + [38, 2, 0, 0, 0] + [29, 3, 0, 0, 0] + [30, 4, 0, 0, 0]) +
      ([31, 5, 0, 0, 0] + [32, 6] + [33, 7] + [35, 8, 0, 0, 0] +
       ([34] + [2, 0, 0, 0, 0, 0, 0, 0] + (([1, 0] + [107]) + ([4] + [1]) +
         (([1, 0] + [110]) + ([2] + [255, 255, 255, 255, 255, 255, 255, 255]) + []))))
  {
    hide Items.AttributesBytes, FullItem, Items.SubTypeAttributes, Items.WritingAttributes, Items.DecayAttributes,
         Items.NameAttributes, Items.CombatAttributes, Items.LastAttributes;
    SubTypeSample(types);
    WritingSample();
    DecaySample();
    NameSample();
    CombatSample();
    LastSample();
    var x := FullItem();
    var s1, s2, s3 := Items.SubTypeAttributes(types, x), Items.WritingAttributes(x), Items.DecayAttributes(x);
    var s4, s5, s6 := Items.NameAttributes(x), Items.CombatAttributes(x), Items.LastAttributes(x);
    Joined(s1 + s2 + s3 + s4 + s5, s6);
    Joined(s1 + s2 + s3 + s4, s5);
    Joined(s1 + s2 + s3, s4);
    Joined(s1 + s2, s3);
    Joined(s1, s2);
  }

  /** The codes of other classes of items are read over: unique id, depot id, door id, sleeper, sleep start and destination,
    with two, two, one, four, four and five bytes. */
  lemma {:induction false} ReadOver(types: Items.Types, x: Items.ItemData, code: byte, p: bytes, rest: bytes)
    requires |p| == match code
      case 5 => 2
      case 10 => 2
      case 14 => 1
      case 20 => 4
      case 21 => 4
      case _ => 5
    requires code in {5, 8, 10, 14, 20, 21}
    ensures Items.ReadAttributes(types, x, [code] + p + rest) == Items.ReadAttributes(types, x, rest)
  {
    hide Items.WithText, FromLittleEndian, Items.ReadEntries, Signed;
    var b := [code] + p + rest;
    assert b[1..] == p + rest && (p + rest)[|p|..] == rest;
  }

  // ---- a bag ------------------------------------------------------------------------------------

  function Bag(): Items.ItemData {
    Items.BlankItem(1987)
  }

  function Coins(n: nat): Items.ItemData {
    Items.BlankItem(2148).(count := n)
  }

  ghost predicate SampleTypes(types: Items.Types) {
    && types(1987).container && !types(1987).stackable && !types(1987).fluid && types(1987).charges == 0
    && !types(2148).container && types(2148).stackable && !types(2148).fluid
  }

  lemma {:induction false} PlainBytes(types: Items.Types, n: nat)
    requires SampleTypes(types) && n < 0x100
    ensures Items.Serialized(types, Bag()) == [] && Items.Serialized(types, Coins(n)) == [15, n]
  {
    NoNumber();
    assert Items.Attributes(types, Bag()) == [];
    assert Items.Attributes(types, Coins(n)) == [Items.Number(15, n)];
    Number1(15, n);
  }

  lemma {:induction false} NoNumber()
    ensures Items.Value16(None) == 0 && Items.Value(None) == 0
  {
    assert Pow256(2) == 0x1_0000;
  }

  /** A bag on a tile with five coins in front and seven behind: the number of its children, and these from behind, each
    item with an end mark. */
  lemma {:induction false} BagBytes(types: Items.Types)
    requires SampleTypes(types)
    ensures Maps.SavedItem(types, Maps.Box(Bag(), [Maps.Leaf(Coins(5)), Maps.Leaf(Coins(7))])) ==
      [195, 7] + [] +
      ([23] + [2, 0, 0, 0] + (([100, 8] + [15, 7] + [] + [0]) + (([100, 8] + [15, 5] + [] + [0]) + []))) +
      [0]
  {
    hide Items.Serialized;
    PlainBytes(types, 5);
    PlainBytes(types, 7);
    Bytes2(1987);
    Bytes2(2148);
    Bytes4(2);
    var a, b := Maps.Leaf(Coins(5)), Maps.Leaf(Coins(7));
    assert [a, b][..1] == [a] && [a][..0] == [];
    assert Maps.SavedReversed(types, [a]) == Maps.SavedItem(types, a) + [];
    assert Maps.SavedReversed(types, [a, b]) == Maps.SavedItem(types, b) + Maps.SavedReversed(types, [a]);
  }

  /** The rows of a bag with coins in slot 3 and of coins in slot 5: slots first, children after all that is above them, and
    sids from 101 on. */
  lemma {:induction false} BagRows(types: Items.Types)
    requires SampleTypes(types)
    ensures Rows.Flattened(types, [(3, Maps.Box(Bag(), [Maps.Leaf(Coins(5)), Maps.Leaf(Coins(7))])),
                                   (5, Maps.Leaf(Coins(9)))], Rows.FIRST_SID) ==
      [Rows.Row(3, 101, 1987, 1, [])] + ([Rows.Row(5, 102, 2148, 9, [15, 9])] +
      ([Rows.Row(101, 103, 2148, 5, [15, 5])] + ([Rows.Row(101, 104, 2148, 7, [15, 7])] + [])))
  {
    hide Items.Serialized;
    PlainBytes(types, 5);
    PlainBytes(types, 7);
    PlainBytes(types, 9);
    var a, b, c := Maps.Leaf(Coins(5)), Maps.Leaf(Coins(7)), Maps.Leaf(Coins(9));
    var q := [(3, Maps.Box(Bag(), [a, b])), (5, c)];
    assert q[1..] + Rows.Tagged(101, [a, b]) == [(5, c), (101, a), (101, b)];
    assert [(5, c), (101, a), (101, b)][1..] + Rows.Tagged(102, []) == [(101, a), (101, b)];
    assert [(101, a), (101, b)][1..] + Rows.Tagged(103, []) == [(101, b)];
    assert [(101, b)][1..] + Rows.Tagged(104, []) == [];
    LastRow(types, 101, b, 104);
    assert Rows.Flattened(types, [(101, a), (101, b)], 103) ==
      [Rows.RowOf(types, 101, 103, a.data)] + Rows.Flattened(types, [(101, b)], 104);
  }

  lemma {:induction false} LastRow(types: Items.Types, pid: int, t: Maps.Tree, sid: int)
    requires t.Leaf?
    ensures Rows.Flattened(types, [(pid, t)], sid) == [Rows.RowOf(types, pid, sid, t.data)] + []
  {
    assert [(pid, t)][1..] + Rows.Tagged(sid, []) == [];
  }

  // ---- conditions -------------------------------------------------------------------------------

  lemma {:induction false} FieldList(f: Conditions.Field, fs: seq<Conditions.Field>)
    ensures Conditions.FieldsBytes([f] + fs) == Conditions.FieldBytes(f) + Conditions.FieldsBytes(fs)
    ensures Conditions.FieldsBytes([]) == []
  {
    assert ([f] + fs)[1..] == fs;
  }

  lemma {:induction false} NumIs(code: byte, v: nat)
    requires v < 0x1_0000
    ensures Conditions.FieldsBytes([Conditions.Num(code, 4, v)]) == [code] + [v % 256, v / 256, 0, 0]
    ensures Conditions.FieldsBytes([Conditions.Num(code, 4, -1)]) == [code] + [255, 255, 255, 255]
    ensures Conditions.FieldsBytes([Conditions.Flag(code, v > 0)]) == [code] + [if v > 0 then 1 else 0]
  {
    Bytes4(v);
    MinusOne();
    Bytes1(1);
    Bytes1(0);
    FieldList(Conditions.Num(code, 4, v), []);
    FieldList(Conditions.Num(code, 4, -1), []);
    FieldList(Conditions.Flag(code, v > 0), []);
    assert [Conditions.Num(code, 4, v)] + [] == [Conditions.Num(code, 4, v)];
    assert [Conditions.Num(code, 4, -1)] + [] == [Conditions.Num(code, 4, -1)];
    assert [Conditions.Flag(code, v > 0)] + [] == [Conditions.Flag(code, v > 0)];
  }

  /** Food for a minute: six header fields, the four of regeneration, and the end mark. */
  lemma {:induction false} ConditionBytes()
    ensures Conditions.Saved(
        Conditions.Condition(0x2000, -1, 60000, true, 0, false, Conditions.Regeneration(1000, 5, 2000, 10))) ==
      ([1] + [0, 32, 0, 0] + ([2] + [255, 255, 255, 255]) + ([3] + [96, 234, 0, 0]) + ([26] + [1]) +
       ([27] + [0, 0, 0, 0]) + ([28] + [0])) +
      (([4] + [232, 3, 0, 0]) + ([5] + [5, 0, 0, 0]) + ([6] + [208, 7, 0, 0]) + ([7] + [10, 0, 0, 0])) + [254]
  {
    hide Conditions.FieldsBytes, Conditions.FieldBytes, Conditions.Num, Conditions.Flag;
    var c := Conditions.Condition(0x2000, -1, 60000, true, 0, false, Conditions.Regeneration(1000, 5, 2000, 10));
    HeaderSample(c);
    RegenerationSample();
  }

  lemma {:induction false} HeaderSample(c: Conditions.Condition)
    requires c.conditionType == 0x2000 && c.id == -1 && c.ticks == 60000 && c.isBuff && c.subId == 0 && !c.aggressive
    ensures Conditions.FieldsBytes(Conditions.HeaderFields(c)) ==
      [1] + [0, 32, 0, 0] + ([2] + [255, 255, 255, 255]) + ([3] + [96, 234, 0, 0]) + ([26] + [1]) +
      ([27] + [0, 0, 0, 0]) + ([28] + [0])
  {
    hide Conditions.FieldsBytes, Conditions.FieldBytes, Conditions.Num, Conditions.Flag;
    var a, b, d := Conditions.Num(1, 4, 0x2000), Conditions.Num(2, 4, -1), Conditions.Num(3, 4, 60000);
    var e, f, g := Conditions.Flag(26, true), Conditions.Num(27, 4, 0), Conditions.Flag(28, false);
    assert Conditions.HeaderFields(c) == [a] + [b] + [d] + [e] + [f] + [g];
    NumIs(1, 0x2000);
    NumIs(2, 0);
    NumIs(3, 60000);
    NumIs(26, 1);
    NumIs(27, 0);
    NumIs(28, 0);
    Conditions.FieldsJoined([a] + [b] + [d] + [e] + [f], [g]);
    Conditions.FieldsJoined([a] + [b] + [d] + [e], [f]);
    Conditions.FieldsJoined([a] + [b] + [d], [e]);
    Conditions.FieldsJoined([a] + [b], [d]);
    Conditions.FieldsJoined([a], [b]);
  }

  lemma {:induction false} RegenerationSample()
    ensures Conditions.FieldsBytes(Conditions.DetailFields(Conditions.Regeneration(1000, 5, 2000, 10))) ==
      ([4] + [232, 3, 0, 0]) + ([5] + [5, 0, 0, 0]) + ([6] + [208, 7, 0, 0]) + ([7] + [10, 0, 0, 0])
  {
    hide Conditions.FieldsBytes, Conditions.FieldBytes, Conditions.Num, Conditions.Flag;
    var a, b := Conditions.Num(4, 4, 1000), Conditions.Num(5, 4, 5);
    var c, d := Conditions.Num(6, 4, 2000), Conditions.Num(7, 4, 10);
    assert Conditions.DetailFields(Conditions.Regeneration(1000, 5, 2000, 10)) == [a] + [b] + [c] + [d];
    NumIs(4, 1000);
    NumIs(5, 5);
    NumIs(6, 2000);
    NumIs(7, 10);
    Conditions.FieldsJoined([a] + [b] + [c], [d]);
    Conditions.FieldsJoined([a] + [b], [c]);
    Conditions.FieldsJoined([a], [b]);
  }

  // ---- nodes ------------------------------------------------------------------------------------

  /** A file with a root of type 1 that has an escaped property and a child of type 2. */
  lemma {:induction false} NodeIsRead()
    ensures Otb.Tree([0, 0, 0, 0, 254, 1, 5, 253, 254, 254, 2, 255, 255]) ==
      Some(Otb.Parsed(1, 6, 9, [Otb.Parsed(2, 11, 11, [])]))
    ensures Otb.Tree([0, 0, 0, 0, 254, 1, 5, 253, 254, 254, 2, 255, 255] + [7, 8]) ==
      Some(Otb.Parsed(1, 6, 9, [Otb.Parsed(2, 11, 11, [])]))
    ensures Otb.Tree([0, 0, 0, 0, 254, 1, 5, 253, 254, 254, 2, 255, 255] + [255]) == None
    ensures Otb.Tree([0, 0, 0, 0, 254, 1, 5, 253, 254, 254, 2, 255]) == None
  {
    NodeGoesOn([]);
    NodeGoesOn([7, 8]);
    NodeGoesOn([255]);
    assert [0, 0, 0, 0, 254, 1, 5, 253, 254, 254, 2, 255, 255] + [] ==
      [0, 0, 0, 0, 254, 1, 5, 253, 254, 254, 2, 255, 255];
    var t := [0, 0, 0, 0, 254, 1, 5, 253, 254, 254, 2, 255, 255] + [7, 8];
    assert t[13] == 7 && t[14] == 8 && Otb.Trailing(t, 15) && Otb.Trailing(t, 14) && Otb.Trailing(t, 13);
    var u := [0, 0, 0, 0, 254, 1, 5, 253, 254, 254, 2, 255, 255] + [255];
    assert u[13] == 255 && !Otb.Trailing(u, 13);
    var b: bytes := [0, 0, 0, 0, 254, 1, 5, 253, 254, 254, 2, 255];
    var root, child := Otb.Open(1, 6), Otb.Parsed(2, 11, 11, []);
    assert Otb.Body(b, 11, Otb.Open(2, 11)) == Some((child, 12));
    assert Otb.Body(b, 9, root) == Otb.Body(b, 12, Otb.WithChild(Otb.Ended(root, 9), child)) == None;
    assert Otb.Body(b, 7, root) == Otb.Body(b, 9, root);
    assert Otb.Body(b, 6, root) == Otb.Body(b, 7, root);
  }

  lemma {:induction false} NodeGoesOn(tail: bytes)
    ensures Otb.Tree([0, 0, 0, 0, 254, 1, 5, 253, 254, 254, 2, 255, 255] + tail) ==
      if Otb.Trailing([0, 0, 0, 0, 254, 1, 5, 253, 254, 254, 2, 255, 255] + tail, 13)
      then Some(Otb.Parsed(1, 6, 9, [Otb.Parsed(2, 11, 11, [])])) else None
  {
    var b := [0, 0, 0, 0, 254, 1, 5, 253, 254, 254, 2, 255, 255] + tail;
    var root, child := Otb.Open(1, 6), Otb.Parsed(2, 11, 11, []);
    assert Otb.Body(b, 11, Otb.Open(2, 11)) == Some((child, 12));
    var full := Otb.WithChild(Otb.Ended(root, 9), child);
    assert full == Otb.Frame(1, 6, Some(9), [child]);
    assert Otb.Body(b, 12, full) == Some((Otb.Parsed(1, 6, 9, [child]), 13));
    assert Otb.Body(b, 9, root) == Otb.Body(b, 12, full);
    assert Otb.Body(b, 7, root) == Otb.Body(b, 9, root);
    assert Otb.Body(b, 6, root) == Otb.Body(b, 7, root);
  }

  lemma {:induction false} NodeIsWritten()
    ensures Otb.Encode(Otb.Otb(1, [5, 254], [Otb.Otb(2, [], [])])) ==
      [254, 1] + ([5] + ([253, 254] + [])) + (([254, 2] + [] + [] + [255]) + []) + [255]
  {
    assert [5, 254][1..] == [254] && [254][1..] == [];
    var p: bytes := [254];
    assert Otb.Escape(p) == [253, 254] + [];
    assert Otb.Escape([5, 254]) == [5] + Otb.Escape(p);
    var child := Otb.Otb(2, [], []);
    assert [child][1..] == [];
    assert Otb.Encode(child) == [254, 2] + [] + [] + [255];
    assert Otb.EncodeAll([child]) == Otb.Encode(child) + Otb.EncodeAll([]);
  }
}
