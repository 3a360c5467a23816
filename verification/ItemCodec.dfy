/** The attribute stream of an item (src/item.cpp `serializeAttr`, `readAttr`, `unserializeAttr`,
  `CreateItem`; src/item.h).

  An item is written as a list of attributes, each a code byte followed by its value.  The central
  result is `AttributesRoundTrip`: for every item without blank custom values, reading back what was
  written yields `Reloaded`, whatever bytes follow; and `ReloadedIsExact` says for which items that
  is the item itself. */
module ItemCodec {
  import opened Wrappers
  import opened PropStreams

  /** The part of an item type that persistence reads. */
  datatype ItemType = ItemType(
    known: bool, container: bool, stackable: bool, fluid: bool, charges: nat, moveable: bool, decayTime: nat)

  type Types = nat -> ItemType

  /** A custom attribute value; a double is kept as its eight bytes. */
  datatype CustomValue = Blank | Str(s: bytes) | Int64(n: int) | Double(bits: nat) | Bool(b: bool)

  datatype Entry = Entry(key: bytes, value: CustomValue)

  /** The persisted state of an item. An absent integer attribute is `None`; `setStrAttr` never stores
    an empty string, so an absent string attribute is the empty string. The hash map of custom
    attributes is listed in insertion order. */
  datatype ItemData = ItemData(
    id: nat, count: nat,
    fluidType: Option<int>, charges: Option<int>, actionId: Option<int>,
    text: bytes, date: Option<int>, writer: bytes, description: bytes,
    duration: Option<int>, decayState: Option<int>,
    name: bytes, article: bytes, pluralName: bytes,
    weight: Option<int>, attack: Option<int>, attackSpeed: Option<int>, defense: Option<int>,
    extraDefense: Option<int>, armor: Option<int>, hitChance: Option<int>, shootRange: Option<int>, decayTo: Option<int>,
    custom: Option<seq<Entry>>)

  const ATTR_ACTION_ID: byte := 4
  const ATTR_UNIQUE_ID: byte := 5
  const ATTR_TEXT: byte := 6
  const ATTR_DESC: byte := 7
  const ATTR_TELE_DEST: byte := 8
  const ATTR_DEPOT_ID: byte := 10
  const ATTR_RUNE_CHARGES: byte := 12
  const ATTR_HOUSEDOORID: byte := 14
  const ATTR_COUNT: byte := 15
  const ATTR_DURATION: byte := 16
  const ATTR_DECAYING_STATE: byte := 17
  const ATTR_WRITTENDATE: byte := 18
  const ATTR_WRITTENBY: byte := 19
  const ATTR_SLEEPERGUID: byte := 20
  const ATTR_SLEEPSTART: byte := 21
  const ATTR_CHARGES: byte := 22
  const ATTR_CONTAINER_ITEMS: byte := 23
  const ATTR_NAME: byte := 24
  const ATTR_ARTICLE: byte := 25
  const ATTR_PLURALNAME: byte := 26
  const ATTR_WEIGHT: byte := 27
  const ATTR_ATTACK: byte := 28
  const ATTR_DEFENSE: byte := 29
  const ATTR_EXTRADEFENSE: byte := 30
  const ATTR_ARMOR: byte := 31
  const ATTR_HITCHANCE: byte := 32
  const ATTR_SHOOTRANGE: byte := 33
  const ATTR_CUSTOM_ATTRIBUTES: byte := 34
  const ATTR_DECAYTO: byte := 35
  const ATTR_ATTACK_SPEED: byte := 38

  const DECAYING_FALSE := 0
  const DECAYING_TRUE := 1
  const DECAYING_PENDING := 2

  // ---- creation ---------------------------------------------------------------------------------

  /** The id that `CreateItem` gives an item that is neither a container nor of a special class. */
  function NormalId(id: nat): nat {
    if 2210 <= id <= 2212 then id - 3
    else if id == 2215 || id == 2216 then id - 2
    else if 2202 <= id <= 2206 then id - 37
    else if id == 2640 then 6132
    else if id == 6301 then 6300
    else id
  }

  /** The rings and the two other items that are created as another type, which is then final. */
  lemma {:induction false} NormalIdIs(id: nat)
    ensures NormalId(2202) == 2165 && NormalId(2203) == 2166 && NormalId(2204) == 2167 && NormalId(2205) == 2168
    ensures NormalId(2206) == 2169 && NormalId(2210) == 2207 && NormalId(2211) == 2208 && NormalId(2212) == 2209
    ensures NormalId(2215) == 2213 && NormalId(2216) == 2214 && NormalId(2640) == 6132 && NormalId(6301) == 6300
    ensures NormalId(id) != id <==>
      id in {2202, 2203, 2204, 2205, 2206, 2210, 2211, 2212, 2215, 2216, 2640, 6301}
    ensures NormalId(NormalId(id)) == NormalId(id)
  {
  }

  function BlankItem(id: nat): ItemData {
    ItemData(id, 1, None, None, None, [], None, [], [], None, None, [], [], [],
             None, None, None, None, None, None, None, None, None, None)
  }

  /** The constructor of `Item`. */
  function Constructed(types: Types, id: nat, count: nat): ItemData {
    var it := types(id);
    var x := BlankItem(id);
    var subtyped :=
      if it.fluid then x.(fluidType := Some(count % 0x10000))
      else if it.stackable then
        (if count != 0 then x.(count := count % 0x100)
         else if it.charges != 0 then x.(count := it.charges % 0x100)
         else x)
      else if it.charges != 0 then
        x.(charges := Some(if count != 0 then count % 0x10000 else it.charges % 0x10000))
      else x;
    var d := Truncate(4, it.decayTime * 1000);
    if d != 0 then subtyped.(duration := Some(Signed(4, d))) else subtyped
  }

  /** `Item::CreateItem(type, count)`: no item for an unknown or deprecated type. */
  function CreateItem(types: Types, id: nat, count: nat): Option<ItemData> {
    var it := types(id);
    var n := if it.stackable && count == 0 then 1 else count;
    if !it.known then None
    else if it.container then Some(Constructed(types, id, 0))
    else Some(Constructed(types, NormalId(id), n))
  }

  /** `Item::setSubType` */
  function WithSubType(types: Types, x: ItemData, n: nat): ItemData {
    var it := types(x.id);
    if it.fluid then x.(fluidType := Some(n % 0x10000))
    else if it.stackable then x.(count := n % 0x100)
    else if it.charges != 0 then x.(charges := Some(n % 0x10000))
    else x.(count := n % 0x100)
  }

  // ---- custom attributes ------------------------------------------------------------------------

  function LowerByte(b: byte): byte {
    if 65 <= b <= 90 then b + 32 else b
  }

  /** `toLowerCaseString` */
  function Lower(s: bytes): (t: bytes)
    ensures |t| == |s| && forall i :: 0 <= i < |s| ==> t[i] == LowerByte(s[i])
  {
    if s == [] then [] else [LowerByte(s[0])] + Lower(s[1..])
  }

  /** `removeCustomAttribute` on a lower-case key */
  function WithoutKey(es: seq<Entry>, key: bytes): (r: seq<Entry>)
    ensures forall e :: e in r ==> e in es && e.key != key
    ensures (forall e :: e in es ==> e.key != key) ==> r == es
  {
    if es == [] then [] else if es[0].key == key then WithoutKey(es[1..], key) else [es[0]] + WithoutKey(es[1..], key)
  }

  /** `setCustomAttribute` */
  function WithCustom(custom: Option<seq<Entry>>, key: bytes, value: CustomValue): Option<seq<Entry>> {
    var k := Lower(key);
    match custom
    case None => Some([Entry(k, value)])
    case Some(es) => Some(WithoutKey(es, k) + [Entry(k, value)])
  }

  /** `CustomAttribute::serialize`: the position in the variant, then the value. */
  function ValueBytes(v: CustomValue): bytes {
    match v
    case Blank => [0]
    case Str(s) => [1] + StringBytes(s)
    case Int64(n) => [2] + NumberBytes(8, n)
    case Double(bits) => [3] + NumberBytes(8, bits)
    case Bool(b) => [4] + NumberBytes(1, if b then 1 else 0)
  }

  /** `CustomAttribute::unserialize` */
  function ReadValue(b: bytes): Option<(CustomValue, bytes)> {
    if b == [] then None
    else if b[0] == 1 then
      match ReadString(b[1..]) case None => None case Some((s, rest)) => Some((Str(s), rest))
    else if b[0] == 2 then
      match ReadNumber(8, b[1..]) case None => None case Some((n, rest)) => Some((Int64(Signed(8, n)), rest))
    else if b[0] == 3 then
      match ReadNumber(8, b[1..]) case None => None case Some((n, rest)) => Some((Double(n), rest))
    else if b[0] == 4 then
      match ReadNumber(1, b[1..]) case None => None case Some((n, rest)) => Some((Bool(n != 0), rest))
    else None
  }

  /** The value that survives being written and read. */
  function StorableValue(v: CustomValue): CustomValue {
    match v
    case Str(s) => Str(Storable(s))
    case Int64(n) => Int64(Signed(8, Truncate(8, n)))
    case Double(bits) => Double(Truncate(8, bits))
    case _ => v
  }

  lemma {:induction false} ValueRoundTrip(v: CustomValue, rest: bytes)
    requires v != Blank
    ensures ReadValue(ValueBytes(v) + rest) == Some((StorableValue(v), rest))
  {
    hide ReadNumber, NumberBytes, ReadString, StringBytes, Signed, Storable;
    var b := ValueBytes(v) + rest;
    match v
    case Str(s) =>
      assert b[1..] == StringBytes(s) + rest;
      StringRoundTrip(s, rest);
    case Int64(n) =>
      assert b[1..] == NumberBytes(8, n) + rest;
      NumberRoundTrip(8, n, rest);
    case Double(bits) =>
      assert b[1..] == NumberBytes(8, bits) + rest;
      NumberRoundTrip(8, bits, rest);
    case Bool(f) =>
      assert b[1..] == NumberBytes(1, if f then 1 else 0) + rest;
      NumberRoundTrip(1, if f then 1 else 0, rest);
      UnsignedRoundTrip(1, if f then 1 else 0);
      assert Pow256(1) == 256;
  }

  function EntriesBytes(es: seq<Entry>): bytes {
    if es == [] then [] else StringBytes(es[0].key) + ValueBytes(es[0].value) + EntriesBytes(es[1..])
  }

  /** The loop over `n` entries of an ATTR_CUSTOM_ATTRIBUTES value: whether it succeeded, the custom
    attributes at the end, and the bytes left. */
  function ReadEntries(n: nat, custom: Option<seq<Entry>>, b: bytes): (bool, Option<seq<Entry>>, bytes)
    decreases n
  {
    if n == 0 then (true, custom, b)
    else
      match ReadString(b)
      case None => (false, custom, b)
      case Some((key, b1)) =>
        match ReadValue(b1)
        case None => (false, custom, b1)
        case Some((value, b2)) => ReadEntries(n - 1, WithCustom(custom, key, value), b2)
  }

  /** The custom attributes after setting each entry as it survives storage. */
  function WithEntries(custom: Option<seq<Entry>>, es: seq<Entry>): Option<seq<Entry>>
    decreases |es|
  {
    if es == [] then custom
    else WithEntries(WithCustom(custom, Storable(es[0].key), StorableValue(es[0].value)), es[1..])
  }

  ghost predicate NoBlanks(es: seq<Entry>) {
    forall e :: e in es ==> e.value != Blank
  }

  lemma {:induction false} EntriesRoundTrip(custom: Option<seq<Entry>>, es: seq<Entry>, rest: bytes)
    requires NoBlanks(es)
    ensures ReadEntries(|es|, custom, EntriesBytes(es) + rest) == (true, WithEntries(custom, es), rest)
    decreases |es|
  {
    hide ReadNumber, NumberBytes, ReadString, StringBytes, ReadValue, ValueBytes, WithCustom, StorableValue, Storable;
    if es == [] {
      assert EntriesBytes(es) + rest == rest;
    } else {
      var e := es[0];
      var tail := EntriesBytes(es[1..]) + rest;
      assert EntriesBytes(es) + rest == StringBytes(e.key) + (ValueBytes(e.value) + tail);
      StringRoundTrip(e.key, ValueBytes(e.value) + tail);
      ValueRoundTrip(e.value, tail);
      EntriesRoundTrip(WithCustom(custom, Storable(e.key), StorableValue(e.value)), es[1..], rest);
    }
  }

  /** A blank value makes the reader of the entries fail. */
  lemma {:induction false} BlankEntryRefused(custom: Option<seq<Entry>>, es: seq<Entry>, rest: bytes)
    requires !NoBlanks(es)
    ensures !ReadEntries(|es|, custom, EntriesBytes(es) + rest).0
    decreases |es|
  {
    hide ReadNumber, NumberBytes, ReadString, StringBytes, ReadValue, ValueBytes, WithCustom, StorableValue, Storable;
    var e := es[0];
    var tail := EntriesBytes(es[1..]) + rest;
    assert EntriesBytes(es) + rest == StringBytes(e.key) + (ValueBytes(e.value) + tail);
    StringRoundTrip(e.key, ValueBytes(e.value) + tail);
    if e.value == Blank {
      BlankValueRefused(tail);
    } else {
      ValueRoundTrip(e.value, tail);
      BlankEntryRefused(WithCustom(custom, Storable(e.key), StorableValue(e.value)), es[1..], rest);
    }
  }

  lemma {:induction false} BlankValueRefused(rest: bytes)
    ensures ReadValue(ValueBytes(Blank) + rest) == None
  {
  }

  // ---- attributes -------------------------------------------------------------------------------

  /** One attribute of the stream, decoded: a number of a fixed width, a string, or the custom map. */
  datatype Attribute = Number(code: byte, v: int) | Text(code: byte, s: bytes) | Custom(entries: seq<Entry>)

  /** The number of bytes of a numeric attribute; the codes of other item classes are read over. */
  function Width(code: byte): Option<nat> {
    if code in {ATTR_COUNT, ATTR_RUNE_CHARGES, ATTR_DECAYING_STATE, ATTR_HITCHANCE, ATTR_SHOOTRANGE,
      ATTR_HOUSEDOORID} then Some(1)
    else if code in {ATTR_ACTION_ID, ATTR_UNIQUE_ID, ATTR_CHARGES, ATTR_DEPOT_ID} then Some(2)
    else if code in {ATTR_WRITTENDATE, ATTR_DURATION, ATTR_WEIGHT, ATTR_ATTACK, ATTR_ATTACK_SPEED, ATTR_DEFENSE,
                     ATTR_EXTRADEFENSE, ATTR_ARMOR, ATTR_DECAYTO, ATTR_SLEEPERGUID, ATTR_SLEEPSTART} then Some(4)
    else if code == ATTR_TELE_DEST then Some(5)
    else None
  }

  function WidthOf(code: byte): nat {
    if Width(code).Some? then Width(code).value else 0
  }

  predicate IsText(code: byte) {
    code in {ATTR_TEXT, ATTR_WRITTENBY, ATTR_DESC, ATTR_NAME, ATTR_ARTICLE, ATTR_PLURALNAME}
  }

  /** What `readAttr` does with a number `u` that it has read. */
  function WithNumber(types: Types, x: ItemData, code: byte, u: nat): ItemData {
    if code == ATTR_COUNT || code == ATTR_RUNE_CHARGES || code == ATTR_CHARGES then WithSubType(types, x, u)
    else if code == ATTR_ACTION_ID then x.(actionId := Some(if u < 100 then 100 else u))
    else if code == ATTR_WRITTENDATE then x.(date := Some(Signed(4, u)))
    else if code == ATTR_DURATION then x.(duration := Some(if Signed(4, u) < 0 then 0 else Signed(4, u)))
    else if code == ATTR_DECAYING_STATE then (if u != DECAYING_FALSE then x.(decayState := Some(DECAYING_PENDING)) else x)
    else if code == ATTR_WEIGHT then x.(weight := Some(u))
    else if code == ATTR_ATTACK then x.(attack := Some(Signed(4, u)))
    else if code == ATTR_ATTACK_SPEED then x.(attackSpeed := Some(if u < 100 then 100 else u))
    else if code == ATTR_DEFENSE then x.(defense := Some(Signed(4, u)))
    else if code == ATTR_EXTRADEFENSE then x.(extraDefense := Some(Signed(4, u)))
    else if code == ATTR_ARMOR then x.(armor := Some(Signed(4, u)))
    else if code == ATTR_HITCHANCE then x.(hitChance := Some(Signed(1, u)))
    else if code == ATTR_SHOOTRANGE then x.(shootRange := Some(u))
    else if code == ATTR_DECAYTO then x.(decayTo := Some(Signed(4, u)))
    else x
  }

  /** What `readAttr` does with a string; an empty one is ignored. */
  function WithText(x: ItemData, code: byte, s: bytes): ItemData {
    if s == [] then x
    else if code == ATTR_TEXT then x.(text := s)
    else if code == ATTR_WRITTENBY then x.(writer := s)
    else if code == ATTR_DESC then x.(description := s)
    else if code == ATTR_NAME then x.(name := s)
    else if code == ATTR_ARTICLE then x.(article := s)
    else if code == ATTR_PLURALNAME then x.(pluralName := s)
    else x
  }

  /** The outcome of `unserializeAttr`: failure, or the item, the bytes left and, when the stream named
    the content of a container, the number of children that follow. */
  datatype ReadResult = Failed(item: ItemData) | Done(item: ItemData, rest: bytes, children: nat)

  /** `Item::unserializeAttr` with `readAttr` inlined; `Container::readAttr` handles its own code. */
  function ReadAttributes(types: Types, x: ItemData, b: bytes): ReadResult
    decreases |b|
  {
    if b == [] || b[0] == 0 then Done(x, if b == [] then [] else b[1..], 0)
    else
      var code, b1 := b[0], b[1..];
      if Width(code).Some? then
        match ReadNumber(Width(code).value, b1)
        case None => Failed(x)
        case Some((u, rest)) => ReadAttributes(types, WithNumber(types, x, code, u), rest)
      else if IsText(code) then
        match ReadString(b1)
        case None => Failed(x)
        case Some((s, rest)) =>
          assert |rest| < |b| by { ReadStringShrinks(b1); }
          ReadAttributes(types, WithText(x, code, s), rest)
      else if code == ATTR_CUSTOM_ATTRIBUTES then
        match ReadNumber(8, b1)
        case None => Failed(x)
        case Some((n, rest)) =>
          var (ok, custom, after) := ReadEntries(n, x.custom, rest);
          if !ok then Failed(x.(custom := custom))
          else
            assert |after| < |b| by { ReadEntriesShrinks(n, x.custom, rest); }
            ReadAttributes(types, x.(custom := custom), after)
      else if code == ATTR_CONTAINER_ITEMS && types(x.id).container then
        match ReadNumber(4, b1)
        case None => Failed(x)
        case Some((n, rest)) => Done(x, rest, n)
      else Failed(x)
  }

  lemma {:induction false} ReadStringShrinks(b: bytes)
    ensures ReadString(b).Some? ==> |ReadString(b).value.1| <= |b|
  {
  }

  lemma {:induction false} ReadEntriesShrinks(n: nat, custom: Option<seq<Entry>>, b: bytes)
    ensures |ReadEntries(n, custom, b).2| <= |b|
    decreases n
  {
    hide WithCustom, FromLittleEndian, Signed;
    if n > 0 && ReadString(b).Some? {
      var (key, b1) := ReadString(b).value;
      ReadStringShrinks(b);
      if ReadValue(b1).Some? {
        var (value, b2) := ReadValue(b1).value;
        assert |b2| <= |b1| by { ReadStringShrinks(b1[1..]); }
        ReadEntriesShrinks(n - 1, WithCustom(custom, key, value), b2);
      }
    }
  }

  function AttributeBytes(a: Attribute): bytes
  {
    match a
    case Number(code, v) => [code] + NumberBytes(WidthOf(code), v)
    case Text(code, s) => [code] + StringBytes(s)
    case Custom(es) => [ATTR_CUSTOM_ATTRIBUTES] + NumberBytes(8, |es|) + EntriesBytes(es)
  }

  ghost predicate WellFormed(a: Attribute) {
    match a
    case Number(code, v) => Width(code).Some?
    case Text(code, s) => IsText(code)
    case Custom(es) => NoBlanks(es) && |es| < Pow256(8)
  }

  /** The effect of reading back one written attribute. */
  function WithAttribute(types: Types, x: ItemData, a: Attribute): ItemData
  {
    match a
    case Number(code, v) => WithNumber(types, x, code, Truncate(WidthOf(code), v))
    case Text(code, s) => WithText(x, code, Storable(s))
    case Custom(es) => x.(custom := WithEntries(x.custom, es))
  }

  lemma {:induction false} NumberAttributeRoundTrip(types: Types, x: ItemData, code: byte, v: int, tail: bytes)
    requires Width(code).Some?
    ensures code != 0
    ensures ReadAttributes(types, x, AttributeBytes(Number(code, v)) + tail)
      == ReadAttributes(types, WithAttribute(types, x, Number(code, v)), tail)
  {
    hide ReadNumber, NumberBytes, WithNumber, Truncate, IsText;
    var b := AttributeBytes(Number(code, v)) + tail;
    assert b[1..] == NumberBytes(WidthOf(code), v) + tail;
    NumberRoundTrip(WidthOf(code), v, tail);
  }

  lemma {:induction false} CustomAttributeRoundTrip(types: Types, x: ItemData, es: seq<Entry>, tail: bytes)
    requires WellFormed(Custom(es))
    ensures ReadAttributes(types, x, AttributeBytes(Custom(es)) + tail)
      == ReadAttributes(types, WithAttribute(types, x, Custom(es)), tail)
  {
    hide ReadNumber, NumberBytes, WithEntries, ReadEntries, EntriesBytes, Truncate;
    var b := AttributeBytes(Custom(es)) + tail;
    assert b[1..] == NumberBytes(8, |es|) + (EntriesBytes(es) + tail);
    NumberRoundTrip(8, |es|, EntriesBytes(es) + tail);
    UnsignedRoundTrip(8, |es|);
    EntriesRoundTrip(x.custom, es, tail);
  }

  lemma {:induction false} TextAttributeRoundTrip(types: Types, x: ItemData, code: byte, s: bytes, tail: bytes)
    requires IsText(code)
    ensures ReadAttributes(types, x, AttributeBytes(Text(code, s)) + tail)
      == ReadAttributes(types, WithAttribute(types, x, Text(code, s)), tail)
  {
    hide ReadString, StringBytes, WithText, Storable;
    assert (AttributeBytes(Text(code, s)) + tail)[1..] == StringBytes(s) + tail;
    StringRoundTrip(s, tail);
  }

  lemma {:induction false} AttributeRoundTrip(types: Types, x: ItemData, a: Attribute, tail: bytes)
    requires WellFormed(a)
    ensures ReadAttributes(types, x, AttributeBytes(a) + tail) == ReadAttributes(types, WithAttribute(types, x, a), tail)
  {
    hide ReadAttributes, AttributeBytes, WithAttribute;
    match a
    case Number(code, v) =>
      NumberAttributeRoundTrip(types, x, code, v, tail);
    case Text(code, s) =>
      TextAttributeRoundTrip(types, x, code, s, tail);
    case Custom(es) =>
      CustomAttributeRoundTrip(types, x, es, tail);
  }

  ghost predicate AllWellFormed(s: seq<Attribute>) {
    forall a :: a in s ==> WellFormed(a)
  }

  function AttributesBytes(s: seq<Attribute>): bytes
  {
    if s == [] then [] else AttributeBytes(s[0]) + AttributesBytes(s[1..])
  }

  function WithAttributes(types: Types, x: ItemData, s: seq<Attribute>): ItemData
    decreases |s|
  {
    if s == [] then x else WithAttributes(types, WithAttribute(types, x, s[0]), s[1..])
  }

  lemma {:induction false} AttributeListRoundTrip(types: Types, x: ItemData, s: seq<Attribute>, tail: bytes)
    requires AllWellFormed(s)
    ensures ReadAttributes(types, x, AttributesBytes(s) + tail) == ReadAttributes(types, WithAttributes(types, x, s), tail)
    decreases |s|
  {
    hide WellFormed, WithAttribute, AttributeBytes, ReadAttributes;
    if s == [] {
      assert AttributesBytes(s) + tail == tail;
    } else {
      var rest := AttributesBytes(s[1..]) + tail;
      assert AttributesBytes(s) + tail == AttributeBytes(s[0]) + rest;
      AttributeRoundTrip(types, x, s[0], rest);
      AttributeListRoundTrip(types, WithAttribute(types, x, s[0]), s[1..], tail);
    }
  }

  lemma {:induction false} WithAttributesAppend(types: Types, x: ItemData, s: seq<Attribute>, t: seq<Attribute>)
    ensures WithAttributes(types, x, s + t) == WithAttributes(types, WithAttributes(types, x, s), t)
    ensures AttributesBytes(s + t) == AttributesBytes(s) + AttributesBytes(t)
    decreases |s|
  {
    hide WithAttribute, AttributeBytes;
    if s == [] {
      assert s + t == t;
    } else {
      assert (s + t)[1..] == s[1..] + t;
      WithAttributesAppend(types, WithAttribute(types, x, s[0]), s[1..], t);
    }
  }

  // ---- writing an item --------------------------------------------------------------------------

  /** `getIntAttr` */
  function Value(o: Option<int>): int {
    if o.Some? then o.value else 0
  }

  /** The attribute read as `uint16_t`, as the getters of charges, fluid type and action id do. */
  function Value16(o: Option<int>): nat {
    Truncate(2, Value(o))
  }

  /** `getDecaying` */
  function Decaying(x: ItemData): nat {
    Truncate(1, Value(x.decayState))
  }

  /** `Item::getSubType` */
  function SubType(types: Types, x: ItemData): nat {
    var it := types(x.id);
    if it.fluid then Value16(x.fluidType)
    else if it.stackable then x.count
    else if it.charges != 0 then Value16(x.charges)
    else x.count
  }

  function Opt(c: bool, a: Attribute): seq<Attribute> {
    if c then [a] else []
  }

  function OptNumber(o: Option<int>, code: byte): seq<Attribute> {
    Opt(o.Some?, Number(code, Value(o)))
  }

  function SubTypeAttributes(types: Types, x: ItemData): seq<Attribute> {
    var it := types(x.id);
    Opt(it.stackable || it.fluid, Number(ATTR_COUNT, SubType(types, x)))
    + Opt(Value16(x.charges) != 0, Number(ATTR_CHARGES, Value16(x.charges)))
    + Opt(it.moveable && Value16(x.actionId) != 0, Number(ATTR_ACTION_ID, Value16(x.actionId)))
  }

  function WritingAttributes(x: ItemData): seq<Attribute> {
    Opt(x.text != [], Text(ATTR_TEXT, x.text))
    + Opt(Value(x.date) != 0, Number(ATTR_WRITTENDATE, Value(x.date)))
    + Opt(x.writer != [], Text(ATTR_WRITTENBY, x.writer))
    + Opt(x.description != [], Text(ATTR_DESC, x.description))
  }

  function DecayAttributes(x: ItemData): seq<Attribute> {
    OptNumber(x.duration, ATTR_DURATION)
    + Opt(Decaying(x) == DECAYING_TRUE || Decaying(x) == DECAYING_PENDING, Number(ATTR_DECAYING_STATE, Decaying(x)))
  }

  function NameAttributes(x: ItemData): seq<Attribute> {
    Opt(x.name != [], Text(ATTR_NAME, x.name))
    + Opt(x.article != [], Text(ATTR_ARTICLE, x.article))
    + Opt(x.pluralName != [], Text(ATTR_PLURALNAME, x.pluralName))
  }

  function CombatAttributes(x: ItemData): seq<Attribute> {
    OptNumber(x.weight, ATTR_WEIGHT)
    + OptNumber(x.attack, ATTR_ATTACK)
    + OptNumber(x.attackSpeed, ATTR_ATTACK_SPEED)
    + OptNumber(x.defense, ATTR_DEFENSE)
    + OptNumber(x.extraDefense, ATTR_EXTRADEFENSE)
  }

  function LastAttributes(x: ItemData): seq<Attribute> {
    OptNumber(x.armor, ATTR_ARMOR)
    + OptNumber(x.hitChance, ATTR_HITCHANCE)
    + OptNumber(x.shootRange, ATTR_SHOOTRANGE)
    + OptNumber(x.decayTo, ATTR_DECAYTO)
    + Opt(x.custom.Some?, Custom(if x.custom.Some? then x.custom.value else []))
  }

  /** The attributes that `Item::serializeAttr` writes, in order. */
  function Attributes(types: Types, x: ItemData): seq<Attribute> {
    SubTypeAttributes(types, x) + WritingAttributes(x) + DecayAttributes(x) + NameAttributes(x)
    + CombatAttributes(x) + LastAttributes(x)
  }

  // ---- what is read back ------------------------------------------------------------------------

  function AtLeast(low: int, v: int): int {
    if v < low then low else v
  }

  /** The subtype and action id read back onto `y`. */
  function WithSubTypeOf(types: Types, y: ItemData, x: ItemData): ItemData {
    var it := types(x.id);
    var y1 := if it.stackable || it.fluid then WithSubType(types, y, Truncate(1, SubType(types, x))) else y;
    var y2 := if Value16(x.charges) != 0 then WithSubType(types, y1, Value16(x.charges)) else y1;
    if it.moveable && Value16(x.actionId) != 0 then y2.(actionId := Some(AtLeast(100, Value16(x.actionId)))) else y2
  }

  function WithWritingOf(y: ItemData, x: ItemData): ItemData {
    y.(text := if Storable(x.text) != [] then Storable(x.text) else y.text,
       date := if Value(x.date) != 0 then Some(Signed(4, Truncate(4, Value(x.date)))) else y.date,
       writer := if Storable(x.writer) != [] then Storable(x.writer) else y.writer,
       description := if Storable(x.description) != [] then Storable(x.description) else y.description)
  }

  function WithDecayOf(y: ItemData, x: ItemData): ItemData {
    y.(duration := if x.duration.Some? then Some(AtLeast(0, Signed(4, Truncate(4, x.duration.value)))) else y.duration,
       decayState := if Decaying(x) == DECAYING_TRUE || Decaying(x) == DECAYING_PENDING then Some(DECAYING_PENDING)
         else y.decayState)
  }

  function WithNamesOf(y: ItemData, x: ItemData): ItemData {
    y.(name := if Storable(x.name) != [] then Storable(x.name) else y.name,
       article := if Storable(x.article) != [] then Storable(x.article) else y.article,
       pluralName := if Storable(x.pluralName) != [] then Storable(x.pluralName) else y.pluralName)
  }

  function Signed32(o: Option<int>, otherwise: Option<int>): Option<int> {
    if o.Some? then Some(Signed(4, Truncate(4, o.value))) else otherwise
  }

  function WithCombatOf(y: ItemData, x: ItemData): ItemData {
    y.(weight := if x.weight.Some? then Some(Truncate(4, x.weight.value)) else y.weight,
       attack := Signed32(x.attack, y.attack),
       attackSpeed := if x.attackSpeed.Some? then Some(AtLeast(100, Truncate(4, x.attackSpeed.value))) else y.attackSpeed,
       defense := Signed32(x.defense, y.defense),
       extraDefense := Signed32(x.extraDefense, y.extraDefense))
  }

  function WithLastOf(y: ItemData, x: ItemData): ItemData {
    y.(armor := Signed32(x.armor, y.armor),
       hitChance := if x.hitChance.Some? then Some(Signed(1, Truncate(1, x.hitChance.value))) else y.hitChance,
       shootRange := if x.shootRange.Some? then Some(Truncate(1, x.shootRange.value)) else y.shootRange,
       decayTo := Signed32(x.decayTo, y.decayTo),
       custom := if x.custom.Some? then WithEntries(y.custom, x.custom.value) else y.custom)
  }

  /** The item that comes back, starting from the freshly created `y`. */
  function Reloaded(types: Types, y: ItemData, x: ItemData): ItemData {
    WithLastOf(WithCombatOf(WithNamesOf(WithDecayOf(WithWritingOf(WithSubTypeOf(types, y, x), x), x), x), x), x)
  }

  lemma {:induction false} OptEffect(types: Types, y: ItemData, c: bool, a: Attribute)
    ensures WithAttributes(types, y, Opt(c, a)) == if c then WithAttribute(types, y, a) else y
  {
    if c {
      assert [a][1..] == [];
    }
  }

  lemma {:induction false} OptStep(types: Types, y: ItemData, s: seq<Attribute>, c: bool, a: Attribute)
    ensures var z := WithAttributes(types, y, s);
            WithAttributes(types, y, s + Opt(c, a)) == if c then WithAttribute(types, z, a) else z
  {
    WithAttributesAppend(types, y, s, Opt(c, a));
    OptEffect(types, WithAttributes(types, y, s), c, a);
  }

  lemma {:induction false} SubTypeEffect(types: Types, y: ItemData, x: ItemData)
    ensures WithAttributes(types, y, SubTypeAttributes(types, x)) == WithSubTypeOf(types, y, x)
  {
    hide WithAttributes, WithSubType, SubType, Opt;
    var it := types(x.id);
    var a1 := Number(ATTR_COUNT, SubType(types, x));
    var a2 := Number(ATTR_CHARGES, Value16(x.charges));
    var a3 := Number(ATTR_ACTION_ID, Value16(x.actionId));
    var c1, c2, c3 := it.stackable || it.fluid, Value16(x.charges) != 0, it.moveable && Value16(x.actionId) != 0;
    OptEffect(types, y, c1, a1);
    OptStep(types, y, Opt(c1, a1), c2, a2);
    OptStep(types, y, Opt(c1, a1) + Opt(c2, a2), c3, a3);
    UnsignedRoundTrip(2, Value16(x.charges));
    UnsignedRoundTrip(2, Value16(x.actionId));
  }

  lemma {:induction false} StorableEmpty()
    ensures Storable([]) == []
  {
  }

  lemma {:induction false} WritingEffect(types: Types, y: ItemData, x: ItemData)
    ensures WithAttributes(types, y, WritingAttributes(x)) == WithWritingOf(y, x)
  {
    hide WithAttributes, Opt, Truncate, Signed, Storable;
    var c1, a1 := x.text != [], Text(ATTR_TEXT, x.text);
    var c2, a2 := Value(x.date) != 0, Number(ATTR_WRITTENDATE, Value(x.date));
    var c3, a3 := x.writer != [], Text(ATTR_WRITTENBY, x.writer);
    var c4, a4 := x.description != [], Text(ATTR_DESC, x.description);
    StorableEmpty();
    var z1 := y.(text := if Storable(x.text) != [] then Storable(x.text) else y.text);
    var z2 := z1.(date := if Value(x.date) != 0 then Some(Signed(4, Truncate(4, Value(x.date)))) else y.date);
    var z3 := z2.(writer := if Storable(x.writer) != [] then Storable(x.writer) else y.writer);
    assert WithAttributes(types, y, Opt(c1, a1)) == z1 by { OptEffect(types, y, c1, a1); }
    assert WithAttributes(types, y, Opt(c1, a1) + Opt(c2, a2)) == z2 by { OptStep(types, y, Opt(c1, a1), c2, a2); }
    assert WithAttributes(types, y, Opt(c1, a1) + Opt(c2, a2) + Opt(c3, a3)) == z3 by {
      OptStep(types, y, Opt(c1, a1) + Opt(c2, a2), c3, a3);
    }
    OptStep(types, y, Opt(c1, a1) + Opt(c2, a2) + Opt(c3, a3), c4, a4);
  }

  lemma {:induction false} DecayEffect(types: Types, y: ItemData, x: ItemData)
    ensures WithAttributes(types, y, DecayAttributes(x)) == WithDecayOf(y, x)
  {
    hide WithAttributes, Opt;
    var c1, a1 := x.duration.Some?, Number(ATTR_DURATION, Value(x.duration));
    var c2, a2 := Decaying(x) == DECAYING_TRUE || Decaying(x) == DECAYING_PENDING, Number(ATTR_DECAYING_STATE, Decaying(x));
    OptEffect(types, y, c1, a1);
    OptStep(types, y, Opt(c1, a1), c2, a2);
    UnsignedRoundTrip(1, Decaying(x));
  }

  lemma {:induction false} NamesEffect(types: Types, y: ItemData, x: ItemData)
    ensures WithAttributes(types, y, NameAttributes(x)) == WithNamesOf(y, x)
  {
    hide WithAttributes, Opt, Storable;
    StorableEmpty();
    var c1, a1 := x.name != [], Text(ATTR_NAME, x.name);
    var c2, a2 := x.article != [], Text(ATTR_ARTICLE, x.article);
    var c3, a3 := x.pluralName != [], Text(ATTR_PLURALNAME, x.pluralName);
    OptEffect(types, y, c1, a1);
    OptStep(types, y, Opt(c1, a1), c2, a2);
    OptStep(types, y, Opt(c1, a1) + Opt(c2, a2), c3, a3);
  }

  lemma {:induction false} CombatFirst(types: Types, y: ItemData, x: ItemData)
    ensures WithAttributes(types, y, OptNumber(x.weight, ATTR_WEIGHT) + OptNumber(x.attack, ATTR_ATTACK)
                                     + OptNumber(x.attackSpeed, ATTR_ATTACK_SPEED))
      == y.(weight := if x.weight.Some? then Some(Truncate(4, x.weight.value)) else y.weight,
            attack := Signed32(x.attack, y.attack),
            attackSpeed := if x.attackSpeed.Some? then Some(AtLeast(100, Truncate(4, x.attackSpeed.value)))
              else y.attackSpeed)
  {
    hide WithAttributes, Opt, Truncate, Signed;
    var c1, a1 := x.weight.Some?, Number(ATTR_WEIGHT, Value(x.weight));
    var c2, a2 := x.attack.Some?, Number(ATTR_ATTACK, Value(x.attack));
    var c3, a3 := x.attackSpeed.Some?, Number(ATTR_ATTACK_SPEED, Value(x.attackSpeed));
    OptEffect(types, y, c1, a1);
    OptStep(types, y, Opt(c1, a1), c2, a2);
    OptStep(types, y, Opt(c1, a1) + Opt(c2, a2), c3, a3);
  }

  lemma {:induction false} CombatEffect(types: Types, y: ItemData, x: ItemData)
    ensures WithAttributes(types, y, CombatAttributes(x)) == WithCombatOf(y, x)
  {
    CombatFirst(types, y, x);
    hide WithAttributes, Opt, Truncate, Signed;
    var s := OptNumber(x.weight, ATTR_WEIGHT) + OptNumber(x.attack, ATTR_ATTACK)
      + OptNumber(x.attackSpeed, ATTR_ATTACK_SPEED);
    var c4, a4 := x.defense.Some?, Number(ATTR_DEFENSE, Value(x.defense));
    var c5, a5 := x.extraDefense.Some?, Number(ATTR_EXTRADEFENSE, Value(x.extraDefense));
    OptStep(types, y, s, c4, a4);
    OptStep(types, y, s + Opt(c4, a4), c5, a5);
  }

  lemma {:induction false} LastFirst(types: Types, y: ItemData, x: ItemData)
    ensures WithAttributes(types, y, OptNumber(x.armor, ATTR_ARMOR) + OptNumber(x.hitChance, ATTR_HITCHANCE)
                                     + OptNumber(x.shootRange, ATTR_SHOOTRANGE))
      == y.(armor := Signed32(x.armor, y.armor),
            hitChance := if x.hitChance.Some? then Some(Signed(1, Truncate(1, x.hitChance.value))) else y.hitChance,
            shootRange := if x.shootRange.Some? then Some(Truncate(1, x.shootRange.value)) else y.shootRange)
  {
    hide WithAttributes, Opt, Truncate, Signed;
    var c1, a1 := x.armor.Some?, Number(ATTR_ARMOR, Value(x.armor));
    var c2, a2 := x.hitChance.Some?, Number(ATTR_HITCHANCE, Value(x.hitChance));
    var c3, a3 := x.shootRange.Some?, Number(ATTR_SHOOTRANGE, Value(x.shootRange));
    OptEffect(types, y, c1, a1);
    OptStep(types, y, Opt(c1, a1), c2, a2);
    OptStep(types, y, Opt(c1, a1) + Opt(c2, a2), c3, a3);
  }

  lemma {:induction false} LastEffect(types: Types, y: ItemData, x: ItemData)
    ensures WithAttributes(types, y, LastAttributes(x)) == WithLastOf(y, x)
  {
    LastFirst(types, y, x);
    hide WithAttributes, Opt, Truncate, Signed, WithEntries;
    var s := OptNumber(x.armor, ATTR_ARMOR) + OptNumber(x.hitChance, ATTR_HITCHANCE)
      + OptNumber(x.shootRange, ATTR_SHOOTRANGE);
    var c4, a4 := x.decayTo.Some?, Number(ATTR_DECAYTO, Value(x.decayTo));
    var c5, a5 := x.custom.Some?, Custom(if x.custom.Some? then x.custom.value else []);
    OptStep(types, y, s, c4, a4);
    OptStep(types, y, s + Opt(c4, a4), c5, a5);
  }

  /** Reading back all attributes of `x` onto `y` gives `Reloaded`. */
  lemma {:induction false} AttributesEffect(types: Types, y: ItemData, x: ItemData)
    ensures WithAttributes(types, y, Attributes(types, x)) == Reloaded(types, y, x)
  {
    hide WithAttributes, WithSubTypeOf, WithWritingOf, WithDecayOf, WithNamesOf, WithCombatOf, WithLastOf;
    hide SubTypeAttributes, WritingAttributes, DecayAttributes, NameAttributes, CombatAttributes, LastAttributes;
    var s1 := SubTypeAttributes(types, x);
    var s2 := s1 + WritingAttributes(x);
    var s3 := s2 + DecayAttributes(x);
    var s4 := s3 + NameAttributes(x);
    var s5 := s4 + CombatAttributes(x);
    var y1 := WithSubTypeOf(types, y, x);
    SubTypeEffect(types, y, x);
    WithAttributesAppend(types, y, s1, WritingAttributes(x));
    WritingEffect(types, y1, x);
    var y2 := WithWritingOf(y1, x);
    WithAttributesAppend(types, y, s2, DecayAttributes(x));
    DecayEffect(types, y2, x);
    var y3 := WithDecayOf(y2, x);
    WithAttributesAppend(types, y, s3, NameAttributes(x));
    NamesEffect(types, y3, x);
    var y4 := WithNamesOf(y3, x);
    WithAttributesAppend(types, y, s4, CombatAttributes(x));
    CombatEffect(types, y4, x);
    WithAttributesAppend(types, y, s5, LastAttributes(x));
    LastEffect(types, WithCombatOf(y4, x), x);
  }

  /** What `Item::serializeAttr` appends to a stream. */
  function Serialized(types: Types, x: ItemData): bytes {
    AttributesBytes(Attributes(types, x))
  }

  /** Blank custom values are written without a value and make the reader fail. */
  ghost predicate Savable(x: ItemData) {
    x.custom.Some? ==> NoBlanks(x.custom.value) && |x.custom.value| < Pow256(8)
  }

  lemma {:induction false} JoinWellFormed(s: seq<Attribute>, t: seq<Attribute>)
    requires AllWellFormed(s) && AllWellFormed(t)
    ensures AllWellFormed(s + t)
  {
  }

  lemma {:induction false} CombatWellFormed(x: ItemData)
    ensures AllWellFormed(CombatAttributes(x))
  {
    var s1, s2, s3 := OptNumber(x.weight, ATTR_WEIGHT), OptNumber(x.attack, ATTR_ATTACK),
      OptNumber(x.attackSpeed, ATTR_ATTACK_SPEED);
    var s4, s5 := OptNumber(x.defense, ATTR_DEFENSE), OptNumber(x.extraDefense, ATTR_EXTRADEFENSE);
    assert AllWellFormed(s1) && AllWellFormed(s2) && AllWellFormed(s3) && AllWellFormed(s4) && AllWellFormed(s5);
    hide AllWellFormed, OptNumber;
    JoinWellFormed(s1, s2);
    JoinWellFormed(s1 + s2, s3);
    JoinWellFormed(s1 + s2 + s3, s4);
    JoinWellFormed(s1 + s2 + s3 + s4, s5);
  }

  lemma {:induction false} LastWellFormed(x: ItemData)
    requires Savable(x)
    ensures AllWellFormed(LastAttributes(x))
  {
    var s1, s2, s3 := OptNumber(x.armor, ATTR_ARMOR), OptNumber(x.hitChance, ATTR_HITCHANCE),
      OptNumber(x.shootRange, ATTR_SHOOTRANGE);
    var s4, s5 := OptNumber(x.decayTo, ATTR_DECAYTO),
      Opt(x.custom.Some?, Custom(if x.custom.Some? then x.custom.value else []));
    assert AllWellFormed(s1) && AllWellFormed(s2) && AllWellFormed(s3) && AllWellFormed(s4) && AllWellFormed(s5);
    hide AllWellFormed, OptNumber;
    JoinWellFormed(s1, s2);
    JoinWellFormed(s1 + s2, s3);
    JoinWellFormed(s1 + s2 + s3, s4);
    JoinWellFormed(s1 + s2 + s3 + s4, s5);
  }

  lemma {:induction false} WritingWellFormed(x: ItemData)
    ensures AllWellFormed(WritingAttributes(x))
  {
    hide Value;
  }

  lemma {:induction false} NamesWellFormed(x: ItemData)
    ensures AllWellFormed(NameAttributes(x))
  {
  }

  lemma {:induction false} StateWellFormed(types: Types, x: ItemData)
    ensures AllWellFormed(SubTypeAttributes(types, x)) && AllWellFormed(DecayAttributes(x))
  {
    hide Value16, SubType, Decaying, Value;
  }

  lemma {:induction false} AttributesWellFormed(types: Types, x: ItemData)
    requires Savable(x)
    ensures AllWellFormed(Attributes(types, x))
  {
    WritingWellFormed(x);
    NamesWellFormed(x);
    StateWellFormed(types, x);
    CombatWellFormed(x);
    LastWellFormed(x);
    hide AllWellFormed, SubTypeAttributes, WritingAttributes, DecayAttributes, NameAttributes, CombatAttributes,
         LastAttributes;
    var s1 := SubTypeAttributes(types, x) + WritingAttributes(x);
    JoinWellFormed(SubTypeAttributes(types, x), WritingAttributes(x));
    JoinWellFormed(s1, DecayAttributes(x));
    JoinWellFormed(s1 + DecayAttributes(x), NameAttributes(x));
    JoinWellFormed(s1 + DecayAttributes(x) + NameAttributes(x), CombatAttributes(x));
    JoinWellFormed(s1 + DecayAttributes(x) + NameAttributes(x) + CombatAttributes(x), LastAttributes(x));
  }

  /** Reading what was written restores `Reloaded`, whatever bytes follow. */
  lemma {:induction false} AttributesRoundTrip(types: Types, y: ItemData, x: ItemData, tail: bytes)
    requires Savable(x)
    ensures ReadAttributes(types, y, Serialized(types, x) + tail) == ReadAttributes(types, Reloaded(types, y, x), tail)
  {
    AttributesWellFormed(types, x);
    AttributesEffect(types, y, x);
    AttributeListRoundTrip(types, y, Attributes(types, x), tail);
  }

  lemma {:induction false} BlankCustomRefused(types: Types, x: ItemData, es: seq<Entry>, tail: bytes)
    requires !NoBlanks(es) && |es| < Pow256(8)
    ensures ReadAttributes(types, x, AttributeBytes(Custom(es)) + tail).Failed?
  {
    hide ReadNumber, NumberBytes, ReadEntries, EntriesBytes, Truncate;
    var b := AttributeBytes(Custom(es)) + tail;
    assert b[1..] == NumberBytes(8, |es|) + (EntriesBytes(es) + tail);
    NumberRoundTrip(8, |es|, EntriesBytes(es) + tail);
    UnsignedRoundTrip(8, |es|);
    BlankEntryRefused(x.custom, es, tail);
  }

  /** The custom attributes come last. */
  lemma {:induction false} CustomIsLast(types: Types, x: ItemData)
    requires x.custom.Some?
    ensures Attributes(types, x) == Attributes(types, x.(custom := None)) + [Custom(x.custom.value)]
  {
    var x0 := x.(custom := None);
    assert SubTypeAttributes(types, x) == SubTypeAttributes(types, x0) && WritingAttributes(x) == WritingAttributes(x0);
    assert DecayAttributes(x) == DecayAttributes(x0) && NameAttributes(x) == NameAttributes(x0);
    assert CombatAttributes(x) == CombatAttributes(x0);
    assert LastAttributes(x) == LastAttributes(x0) + [Custom(x.custom.value)];
  }

  /** A written item with fewer than 2^64 custom attributes can be read back up to the end or an end marker exactly
    when none of them is blank. */
  lemma {:induction false} ReadableIsSavable(types: Types, y: ItemData, x: ItemData, tail: bytes)
    requires x.custom.Some? ==> |x.custom.value| < Pow256(8)
    requires tail == [] || tail[0] == 0
    ensures ReadAttributes(types, y, Serialized(types, x) + tail).Done? <==> Savable(x)
  {
    if Savable(x) {
      AttributesRoundTrip(types, y, x, tail);
    } else {
      var x0, a := x.(custom := None), Custom(x.custom.value);
      CustomIsLast(types, x);
      AttributesWellFormed(types, x0);
      hide Attributes, Serialized, ReadAttributes, AttributesBytes, AttributeBytes;
      assert Serialized(types, x) + tail == AttributesBytes(Attributes(types, x0)) + (AttributeBytes(a) + tail) by {
        LastWritten(types, x, x0, a, tail);
      }
      AttributeListRoundTrip(types, y, Attributes(types, x0), AttributeBytes(a) + tail);
      BlankCustomRefused(types, WithAttributes(types, y, Attributes(types, x0)), x.custom.value, tail);
    }
  }

  lemma {:induction false} LastWritten(types: Types, x: ItemData, x0: ItemData, a: Attribute, tail: bytes)
    requires Attributes(types, x) == Attributes(types, x0) + [a]
    ensures Serialized(types, x) + tail == AttributesBytes(Attributes(types, x0)) + (AttributeBytes(a) + tail)
  {
    hide Attributes, AttributesBytes, AttributeBytes;
    OneMore(Attributes(types, x0), a);
    var p, q := AttributesBytes(Attributes(types, x0)), AttributeBytes(a);
    assert p + q + tail == p + (q + tail);
  }

  // ---- which items come back unchanged ----------------------------------------------------------

  predicate FitsSigned(n: nat, o: Option<int>) {
    o.Some? ==> -(Pow256(n) / 2) <= o.value < Pow256(n) / 2
  }

  predicate FitsUnsigned(n: nat, low: int, o: Option<int>) {
    o.Some? ==> low <= o.value < Pow256(n)
  }

  /** A custom entry that survives storage: a lower-case key and a value within its width. */
  predicate EntryExact(e: Entry) {
    && |e.key| <= MAX_STRING && (forall i :: 0 <= i < |e.key| ==> !(65 <= e.key[i] <= 90))
    && match e.value
       case Str(s) => |s| <= MAX_STRING
       case Int64(n) => -(Pow256(8) / 2) <= n < Pow256(8) / 2
       case Double(bits) => bits < Pow256(8)
       case _ => true
  }

  ghost predicate DistinctKeys(es: seq<Entry>) {
    forall i, j :: 0 <= i < j < |es| ==> es[i].key != es[j].key
  }

  ghost predicate GoodEntries(es: seq<Entry>) {
    (forall e :: e in es ==> EntryExact(e)) && DistinctKeys(es)
  }

  ghost predicate CustomExact(o: Option<seq<Entry>>) {
    o.Some? ==> o.value != [] && GoodEntries(o.value)
  }

  /** Count, fluid type and charges are those that the type of the item provides for. */
  predicate SubTypeExact(types: Types, x: ItemData) {
    var it := types(x.id);
    if it.fluid then
      x.count == 1 && x.charges == None && x.fluidType.Some? && 0 <= x.fluidType.value < 0x100
    else if it.stackable then
      x.count < 0x100 && x.charges == None && x.fluidType == None
    else if it.charges != 0 then
      x.count == 1 && x.fluidType == None && x.charges.Some? && 0 <= x.charges.value < 0x10000
      && (x.charges.value == 0 ==> it.charges % 0x10000 == 0)
    else
      x.count == 1 && x.charges == None && x.fluidType == None
  }

  /** The items of known type that persistence returns unchanged. */
  ghost predicate Exact(types: Types, x: ItemData) {
    && (types(x.id).container || NormalId(x.id) == x.id)
    && SubTypeExact(types, x)
    && (x.actionId.Some? ==> types(x.id).moveable && 100 <= x.actionId.value < 0x10000)
    && |x.text| <= MAX_STRING && |x.writer| <= MAX_STRING && |x.description| <= MAX_STRING
    && (x.date.Some? ==> x.date.value != 0) && FitsSigned(4, x.date)
    && (x.duration.Some? ==> 0 <= x.duration.value) && FitsSigned(4, x.duration)
    && (x.duration == None ==> Truncate(4, types(x.id).decayTime * 1000) == 0)
    && (x.decayState.Some? ==> x.decayState.value == DECAYING_PENDING)
    && |x.name| <= MAX_STRING && |x.article| <= MAX_STRING && |x.pluralName| <= MAX_STRING
    && FitsUnsigned(4, 0, x.weight) && FitsSigned(4, x.attack) && FitsUnsigned(4, 100, x.attackSpeed)
    && FitsSigned(4, x.defense) && FitsSigned(4, x.extraDefense) && FitsSigned(4, x.armor)
    && FitsSigned(1, x.hitChance) && FitsUnsigned(1, 0, x.shootRange) && FitsSigned(4, x.decayTo)
    && CustomExact(x.custom)
  }

  lemma {:induction false} ValueExact(v: CustomValue)
    ensures StorableValue(v) == v <==>
      match v
      case Str(s) => |s| <= MAX_STRING
      case Int64(n) => -(Pow256(8) / 2) <= n < Pow256(8) / 2
      case Double(bits) => bits < Pow256(8)
      case _ => true
  {
    match v
    case Int64(n) => SignedRoundTrip(8, n);
    case Double(bits) => UnsignedRoundTrip(8, bits);
    case _ =>
  }

  /** What storage makes of an entry is an entry that survives storage. */
  lemma {:induction false} StorableIsExact(e: Entry)
    ensures EntryExact(Entry(Lower(Storable(e.key)), StorableValue(e.value)))
  {
    if e.value.Int64? {
      var n := e.value.n;
      assert Pow256(8) == 256 * Pow256(7);
    }
  }

  lemma {:induction false} WithoutKeyDistinct(es: seq<Entry>, key: bytes)
    requires DistinctKeys(es)
    ensures DistinctKeys(WithoutKey(es, key))
  {
    if es != [] {
      WithoutKeyDistinct(es[1..], key);
      assert forall e :: e in es[1..] ==> e.key != es[0].key;
    }
  }

  lemma {:induction false} EntriesSetAreGood(custom: Option<seq<Entry>>, es: seq<Entry>)
    requires custom.Some? ==> GoodEntries(custom.value)
    ensures WithEntries(custom, es).Some? ==> GoodEntries(WithEntries(custom, es).value)
    ensures es != [] || custom.Some? ==> WithEntries(custom, es).Some?
    decreases |es|
  {
    if es != [] {
      hide EntryExact;
      StorableIsExact(es[0]);
      if custom.Some? { WithoutKeyDistinct(custom.value, Lower(Storable(es[0].key))); }
      EntriesSetAreGood(WithCustom(custom, Storable(es[0].key), StorableValue(es[0].value)), es[1..]);
    }
  }

  lemma {:induction false} GoodEntriesSetUnchanged(done: seq<Entry>, es: seq<Entry>)
    requires GoodEntries(done + es)
    ensures WithEntries(Some(done), es) == Some(done + es)
    decreases |es|
  {
    if es == [] {
      assert done + es == done;
    } else {
      var e := es[0];
      assert e in done + es && (done + es)[|done|] == e;
      ValueExact(e.value);
      assert Lower(e.key) == e.key;
      assert forall i :: 0 <= i < |done| ==> (done + es)[i] == done[i];
      assert done + es == (done + [e]) + es[1..];
      GoodEntriesSetUnchanged(done + [e], es[1..]);
    }
  }

  lemma {:induction false} CustomExactly(o: Option<seq<Entry>>)
    ensures (if o.Some? then WithEntries(None, o.value) else None) == o <==> CustomExact(o)
  {
    if o.Some? {
      var es := o.value;
      EntriesSetAreGood(None, es);
      if CustomExact(o) {
        var e := es[0];
        assert e in es;
        ValueExact(e.value);
        assert Lower(e.key) == e.key;
        assert [e] + es[1..] == es;
        GoodEntriesSetUnchanged([e], es[1..]);
      }
    }
  }

  lemma {:induction false} Signed32Exactly(o: Option<int>)
    ensures Signed32(o, None) == o <==> FitsSigned(4, o)
  {
    if o.Some? { SignedRoundTrip(4, o.value); }
  }

  lemma {:induction false} UnsignedExactly(n: nat, low: nat, o: Option<int>)
    requires low < Pow256(n)
    ensures (if o.Some? then Some(AtLeast(low, Truncate(n, o.value))) else None) == o <==> FitsUnsigned(n, low, o)
  {
    if o.Some? { UnsignedRoundTrip(n, o.value); }
  }

  lemma {:induction false} FluidOutcome(types: Types, x: ItemData)
    requires types(x.id).known && (types(x.id).container || NormalId(x.id) == x.id) && types(x.id).fluid
    ensures var z := WithSubTypeOf(types, CreateItem(types, x.id, 0).value, x);
      var c := Value16(x.charges);
      z.charges == None && z.count == 1 && z.fluidType == Some(if c != 0 then c else Truncate(1, Value16(x.fluidType)))
  {
    assert Pow256(1) == 0x100;
    assert Pow256(2) == 0x10000;
    hide Pow256, Signed;
  }

  lemma {:induction false} StackOutcome(types: Types, x: ItemData)
    requires types(x.id).known && (types(x.id).container || NormalId(x.id) == x.id) && types(x.id).stackable
    requires !types(x.id).fluid
    ensures var z := WithSubTypeOf(types, CreateItem(types, x.id, 0).value, x);
      var c := Value16(x.charges);
      z.charges == None && z.fluidType == None && z.count == (if c != 0 then c % 0x100 else Truncate(1, x.count))
  {
    assert Pow256(1) == 0x100;
    assert Pow256(2) == 0x10000;
    hide Pow256, Signed;
  }

  /** The subtype of a fluid or a stack as it is read back. */
  lemma {:induction false} CountedOutcome(types: Types, x: ItemData)
    requires types(x.id).known && (types(x.id).container || NormalId(x.id) == x.id)
    requires types(x.id).fluid || types(x.id).stackable
    ensures var z := WithSubTypeOf(types, CreateItem(types, x.id, 0).value, x);
      var c := Value16(x.charges);
      && z.charges == None
      && (types(x.id).fluid ==> z.count == 1 && z.fluidType == Some(if c != 0 then c else Truncate(1, Value16(x.fluidType))))
      && (!types(x.id).fluid ==> z.count == (if c != 0 then c % 0x100 else Truncate(1, x.count)) && z.fluidType == None)
  {
    if types(x.id).fluid {
      FluidOutcome(types, x);
    } else {
      StackOutcome(types, x);
    }
  }

  /** The subtype of any other item as it is read back. */
  lemma {:induction false} UncountedOutcome(types: Types, x: ItemData)
    requires types(x.id).known && (types(x.id).container || NormalId(x.id) == x.id)
    requires !types(x.id).fluid && !types(x.id).stackable
    ensures var z := WithSubTypeOf(types, CreateItem(types, x.id, 0).value, x);
      var c := Value16(x.charges);
      && z.fluidType == None
      && (types(x.id).charges != 0 ==>
        z.count == 1 && z.charges == Some(if c != 0 then c else types(x.id).charges % 0x10000))
      && (types(x.id).charges == 0 ==> z.count == (if c != 0 then c % 0x100 else 1) && z.charges == None)
  {
    assert Pow256(2) == 0x10000 by { assert Pow256(1) == 0x100; }
    hide Pow256, Signed;
  }

  lemma {:induction false} SubTypeExactly(types: Types, x: ItemData)
    requires types(x.id).known && (types(x.id).container || NormalId(x.id) == x.id)
    ensures var z := WithSubTypeOf(types, CreateItem(types, x.id, 0).value, x);
            z.count == x.count && z.fluidType == x.fluidType && z.charges == x.charges <==> SubTypeExact(types, x)
  {
    assert Pow256(1) == 0x100;
    assert Pow256(2) == 0x10000;
    UnsignedRoundTrip(2, Value(x.charges));
    UnsignedRoundTrip(2, Value(x.fluidType));
    UnsignedRoundTrip(1, Value16(x.fluidType));
    UnsignedRoundTrip(1, x.count);
    if types(x.id).fluid || types(x.id).stackable {
      CountedOutcome(types, x);
    } else {
      UncountedOutcome(types, x);
    }
    hide Truncate, Pow256, WithSubTypeOf, CreateItem;
  }

  lemma {:induction false} ActionIdExactly(types: Types, y: ItemData, x: ItemData)
    requires y.actionId == None
    ensures WithSubTypeOf(types, y, x).actionId == x.actionId <==>
      (x.actionId.Some? ==> types(x.id).moveable && 100 <= x.actionId.value < 0x10000)
  {
    assert Pow256(2) == 0x10000 by { assert Pow256(1) == 0x100; }
    UnsignedRoundTrip(2, Value(x.actionId));
  }

  lemma {:induction false} WritingExactly(y: ItemData, x: ItemData)
    requires y.text == [] && y.date == None && y.writer == [] && y.description == []
    ensures var z := WithWritingOf(y, x);
            z.text == x.text && z.date == x.date && z.writer == x.writer && z.description == x.description <==>
            |x.text| <= MAX_STRING && |x.writer| <= MAX_STRING && |x.description| <= MAX_STRING
            && (x.date.Some? ==> x.date.value != 0) && FitsSigned(4, x.date)
  {
    if x.date.Some? { SignedRoundTrip(4, x.date.value); }
  }

  lemma {:induction false} DecayExactly(y: ItemData, x: ItemData)
    requires y.decayState == None
    ensures WithDecayOf(y, x).decayState == x.decayState <==> (x.decayState.Some? ==> x.decayState.value == DECAYING_PENDING)
    ensures x.duration.Some? ==>
      (WithDecayOf(y, x).duration == x.duration <==> 0 <= x.duration.value && FitsSigned(4, x.duration))
  {
    assert Pow256(1) == 256;
    UnsignedRoundTrip(1, Value(x.decayState));
    if x.duration.Some? {
      SignedRoundTrip(4, x.duration.value);
      SignedOutcome(4, x.duration.value);
    }
  }

  /** The value read back lies in the signed range. */
  lemma {:induction false} SignedOutcome(n: nat, v: int)
    requires n > 0
    ensures -(Pow256(n) / 2) <= Signed(n, Truncate(n, v)) < Pow256(n) / 2
  {
    var h := 128 * Pow256(n - 1);
    assert Pow256(n) == 2 * h;
    var u := Truncate(n, v);
    hide Truncate, Pow256;
    assert (2 * h) / 2 == h;
  }

  /** Each group of attributes is read back independently of the others. */
  lemma {:induction false} ReloadedParts(types: Types, y: ItemData, x: ItemData)
    ensures var r := Reloaded(types, y, x);
      var a, b, c := WithSubTypeOf(types, y, x), WithWritingOf(y, x), WithDecayOf(y, x);
      var d, e, f := WithNamesOf(y, x), WithCombatOf(y, x), WithLastOf(y, x);
      r == ItemData(y.id, a.count, a.fluidType, a.charges, a.actionId, b.text, b.date, b.writer, b.description,
                    c.duration, c.decayState, d.name, d.article, d.pluralName,
                    e.weight, e.attack, e.attackSpeed, e.defense, e.extraDefense,
                    f.armor, f.hitChance, f.shootRange, f.decayTo, f.custom)
  {
    FrontParts(types, y, x);
    var z := WithDecayOf(WithWritingOf(WithSubTypeOf(types, y, x), x), x);
    BackParts(y, z, x);
    hide WithSubTypeOf, WithWritingOf, WithDecayOf, WithNamesOf, WithCombatOf, WithLastOf;
  }

  lemma {:induction false} SubTypeParts(types: Types, y: ItemData, x: ItemData)
    ensures var a := WithSubTypeOf(types, y, x);
      a == y.(count := a.count, fluidType := a.fluidType, charges := a.charges, actionId := a.actionId)
  {
    hide Truncate, SubType, Value16, WithSubType;
    var it := types(x.id);
    var y1 := if it.stackable || it.fluid then WithSubType(types, y, Truncate(1, SubType(types, x))) else y;
    SubTypeOnly(types, y, Truncate(1, SubType(types, x)));
    SubTypeOnly(types, y1, Value16(x.charges));
  }

  lemma {:induction false} SubTypeOnly(types: Types, y: ItemData, n: nat)
    ensures var a := WithSubType(types, y, n); a == y.(count := a.count, fluidType := a.fluidType, charges := a.charges)
  {
  }

  lemma {:induction false} FrontParts(types: Types, y: ItemData, x: ItemData)
    ensures var a, b, c := WithSubTypeOf(types, y, x), WithWritingOf(y, x), WithDecayOf(y, x);
      WithDecayOf(WithWritingOf(a, x), x)
      == y.(count := a.count, fluidType := a.fluidType, charges := a.charges, actionId := a.actionId,
            text := b.text, date := b.date, writer := b.writer, description := b.description,
            duration := c.duration, decayState := c.decayState)
  {
    hide Truncate, Signed, Storable, Decaying, SubType, Value16;
    var a, b := WithSubTypeOf(types, y, x), WithWritingOf(y, x);
    SubTypeParts(types, y, x);
    hide WithSubTypeOf;
    assert WithWritingOf(a, x) == a.(text := b.text, date := b.date, writer := b.writer, description := b.description);
    hide WithWritingOf;
  }

  lemma {:induction false} BackParts(y: ItemData, z: ItemData, x: ItemData)
    requires z == y.(count := z.count, fluidType := z.fluidType, charges := z.charges, actionId := z.actionId,
                     text := z.text, date := z.date, writer := z.writer, description := z.description,
                     duration := z.duration, decayState := z.decayState)
    ensures var d, e, f := WithNamesOf(y, x), WithCombatOf(y, x), WithLastOf(y, x);
      WithLastOf(WithCombatOf(WithNamesOf(z, x), x), x)
      == z.(name := d.name, article := d.article, pluralName := d.pluralName,
            weight := e.weight, attack := e.attack, attackSpeed := e.attackSpeed, defense := e.defense,
              extraDefense := e.extraDefense,
            armor := f.armor, hitChance := f.hitChance, shootRange := f.shootRange, decayTo := f.decayTo, custom := f.custom)
  {
    hide Truncate, Signed, Signed32, WithEntries, Storable;
    var d, e := WithNamesOf(y, x), WithCombatOf(y, x);
    var z1 := WithNamesOf(z, x);
    assert z1 == z.(name := d.name, article := d.article, pluralName := d.pluralName);
    hide WithNamesOf;
    assert WithCombatOf(z1, x) ==
      z1.(weight := e.weight, attack := e.attack, attackSpeed := e.attackSpeed, defense := e.defense,
                                      extraDefense := e.extraDefense);
    hide WithCombatOf;
  }

  /** An item of known type is restored exactly when it is `Exact`. */
  lemma {:induction false} ReloadedIsExact(types: Types, x: ItemData)
    requires types(x.id).known
    ensures Reloaded(types, CreateItem(types, x.id, 0).value, x) == x <==> Exact(types, x)
  {
    var y := CreateItem(types, x.id, 0).value;
    ReloadedParts(types, y, x);
    FreshItem(types, x.id);
    if y.id == x.id {
      SubTypeExactly(types, x);
      ActionIdExactly(types, y, x);
      WritingExactly(y, x);
      DecayExactly(y, x);
      assert Pow256(1) == 256;
      assert Pow256(4) > 100 by { assert Pow256(4) == 256 * Pow256(3); }
      UnsignedExactly(4, 0, x.weight);
      Signed32Exactly(x.attack);
      UnsignedExactly(4, 100, x.attackSpeed);
      Signed32Exactly(x.defense);
      Signed32Exactly(x.extraDefense);
      Signed32Exactly(x.armor);
      if x.hitChance.Some? { SignedRoundTrip(1, x.hitChance.value); }
      UnsignedExactly(1, 0, x.shootRange);
      Signed32Exactly(x.decayTo);
      CustomExactly(x.custom);
      hide SubTypeExact, CustomExact, Truncate, Signed, Signed32, WithEntries, Pow256, CreateItem, Reloaded,
           WithSubTypeOf, WithWritingOf;
    }
  }

  /** A freshly created item has only the attributes of its constructor. */
  lemma {:induction false} FreshItem(types: Types, id: nat)
    requires types(id).known
    ensures var y := CreateItem(types, id, 0).value;
      && y.id == (if types(id).container then id else NormalId(id))
      && y == BlankItem(y.id).(count := y.count, fluidType := y.fluidType, charges := y.charges, duration := y.duration)
      && (y.duration.Some? <==> Truncate(4, types(y.id).decayTime * 1000) != 0)
  {
  }

  // ---- the stream operations --------------------------------------------------------------------

  lemma {:induction false} OneMore(s: seq<Attribute>, a: Attribute)
    ensures AttributesBytes(s + [a]) == AttributesBytes(s) + AttributeBytes(a)
  {
    if s == [] {
      assert [] + [a] == [a];
    } else {
      assert (s + [a])[1..] == s[1..] + [a];
      OneMore(s[1..], a);
    }
  }

  lemma {:induction false} OneByte(b: byte)
    ensures NumberBytes(1, b) == [b]
  {
    assert Pow256(1) == 256;
    assert LittleEndian(1, b) == [b % 256] + LittleEndian(0, b / 256);
  }

  /** The stream holds `start` followed by the attributes `done`. */
  ghost predicate Wrote(stream: PropWriteStream, start: bytes, done: seq<Attribute>)
    reads stream
  {
    stream.buffer == start + AttributesBytes(done)
  }

  /** One guarded numeric write of `serializeAttr`: the code byte, then a number of the code's width. */
  method WriteNumber(stream: PropWriteStream, guarded: bool, code: byte, v: int, ghost start: bytes,
                     ghost done: seq<Attribute>)
    requires Wrote(stream, start, done)
    modifies stream
    ensures Wrote(stream, start, done + Opt(guarded, Number(code, v)))
  {
    hide AttributesBytes, NumberBytes;
    if guarded {
      stream.Write(1, code);
      OneByte(code);
      stream.Write(WidthOf(code), v);
      OneMore(done, Number(code, v));
    } else {
      assert done + [] == done;
    }
  }

  /** One guarded string write of `serializeAttr`. */
  method WriteText(stream: PropWriteStream, guarded: bool, code: byte, s: bytes, ghost start: bytes,
                   ghost done: seq<Attribute>)
    requires Wrote(stream, start, done)
    modifies stream
    ensures Wrote(stream, start, done + Opt(guarded, Text(code, s)))
  {
    hide AttributesBytes, NumberBytes, StringBytes;
    if guarded {
      stream.Write(1, code);
      OneByte(code);
      stream.WriteString(s);
      OneMore(done, Text(code, s));
    } else {
      assert done + [] == done;
    }
  }

  /** `CustomAttribute::serialize` */
  method SerializeValue(stream: PropWriteStream, v: CustomValue)
    modifies stream
    ensures stream.buffer == old(stream.buffer) + ValueBytes(v)
  {
    hide NumberBytes, StringBytes;
    var which: byte := match v case Blank => 0 case Str(_) => 1 case Int64(_) => 2 case Double(_) => 3 case Bool(_) => 4;
    stream.Write(1, which);
    OneByte(which);
    match v
    case Blank =>
    case Str(s) => stream.WriteString(s);
    case Int64(n) => stream.Write(8, n);
    case Double(bits) => stream.Write(8, bits);
    case Bool(b) => stream.Write(1, if b then 1 else 0);
  }

  lemma {:induction false} OneMoreEntry(es: seq<Entry>, i: nat)
    requires i < |es|
    ensures EntriesBytes(es[..i + 1]) == EntriesBytes(es[..i]) + StringBytes(es[i].key) + ValueBytes(es[i].value)
  {
    hide StringBytes, ValueBytes;
    if i == 0 {
      assert es[..1][1..] == [];
    } else {
      assert es[..i + 1][1..] == es[1..][..i] && es[..i][1..] == es[1..][..i - 1];
      OneMoreEntry(es[1..], i - 1);
    }
  }

  /** The loop over the custom attributes at the end of `serializeAttr`. */
  method WriteEntries(stream: PropWriteStream, es: seq<Entry>)
    modifies stream
    ensures stream.buffer == old(stream.buffer) + EntriesBytes(es)
  {
    ghost var start := stream.buffer;
    ghost var done: bytes := [];
    assert EntriesBytes(es[..0]) == done;
    hide EntriesBytes, StringBytes, ValueBytes;
    for i := 0 to |es|
      invariant stream.buffer == start + done && done == EntriesBytes(es[..i])
    {
      stream.WriteString(es[i].key);
      SerializeValue(stream, es[i].value);
      OneMoreEntry(es, i);
      Associative(start, done, StringBytes(es[i].key), ValueBytes(es[i].value));
      done := done + StringBytes(es[i].key) + ValueBytes(es[i].value);
    }
    assert es[..|es|] == es;
  }

  lemma {:induction false} Associative(a: bytes, b: bytes, c: bytes, d: bytes)
    ensures a + b + c + d == a + (b + c + d)
  {
  }

  /** The custom attributes at the end of `serializeAttr`. */
  method WriteCustom(stream: PropWriteStream, custom: Option<seq<Entry>>, ghost start: bytes, ghost done: seq<Attribute>)
    requires Wrote(stream, start, done)
    modifies stream
    ensures Wrote(stream, start, done + Opt(custom.Some?, Custom(if custom.Some? then custom.value else [])))
  {
    hide AttributesBytes, NumberBytes, EntriesBytes;
    if custom.Some? {
      var es := custom.value;
      stream.Write(1, ATTR_CUSTOM_ATTRIBUTES);
      OneByte(ATTR_CUSTOM_ATTRIBUTES);
      stream.Write(8, |es|);
      WriteEntries(stream, es);
      OneMore(done, Custom(es));
    } else {
      assert done + [] == done;
    }
  }

  method WriteSubType(stream: PropWriteStream, types: Types, x: ItemData)
    modifies stream
    ensures Wrote(stream, old(stream.buffer), SubTypeAttributes(types, x))
  {
    hide Opt;
    ghost var start := stream.buffer;
    assert Wrote(stream, start, []);
    hide Wrote;
    var it := types(x.id);
    ghost var done: seq<Attribute> := [];
    WriteNumber(stream, it.stackable || it.fluid, ATTR_COUNT, SubType(types, x), start, done);
    done := Opt(it.stackable || it.fluid, Number(ATTR_COUNT, SubType(types, x)));
    assert [] + done == done;
    WriteNumber(stream, Value16(x.charges) != 0, ATTR_CHARGES, Value16(x.charges), start, done);
    done := done + Opt(Value16(x.charges) != 0, Number(ATTR_CHARGES, Value16(x.charges)));
    WriteNumber(stream, it.moveable && Value16(x.actionId) != 0, ATTR_ACTION_ID, Value16(x.actionId), start, done);
  }

  method WriteWriting(stream: PropWriteStream, x: ItemData)
    modifies stream
    ensures Wrote(stream, old(stream.buffer), WritingAttributes(x))
  {
    hide Opt;
    ghost var start := stream.buffer;
    assert Wrote(stream, start, []);
    hide Wrote;
    ghost var done: seq<Attribute> := [];
    WriteText(stream, x.text != [], ATTR_TEXT, x.text, start, done);
    done := Opt(x.text != [], Text(ATTR_TEXT, x.text));
    assert [] + done == done;
    WriteNumber(stream, Value(x.date) != 0, ATTR_WRITTENDATE, Value(x.date), start, done);
    done := done + Opt(Value(x.date) != 0, Number(ATTR_WRITTENDATE, Value(x.date)));
    WriteText(stream, x.writer != [], ATTR_WRITTENBY, x.writer, start, done);
    done := done + Opt(x.writer != [], Text(ATTR_WRITTENBY, x.writer));
    WriteText(stream, x.description != [], ATTR_DESC, x.description, start, done);
  }

  method WriteDecay(stream: PropWriteStream, x: ItemData)
    modifies stream
    ensures Wrote(stream, old(stream.buffer), DecayAttributes(x))
  {
    hide Opt;
    ghost var start := stream.buffer;
    assert Wrote(stream, start, []);
    hide Wrote;
    ghost var done: seq<Attribute> := [];
    WriteNumber(stream, x.duration.Some?, ATTR_DURATION, Value(x.duration), start, done);
    done := OptNumber(x.duration, ATTR_DURATION);
    assert [] + done == done;
    var state := Decaying(x);
    WriteNumber(stream, state == DECAYING_TRUE || state == DECAYING_PENDING, ATTR_DECAYING_STATE, state, start, done);
  }

  method WriteNames(stream: PropWriteStream, x: ItemData)
    modifies stream
    ensures Wrote(stream, old(stream.buffer), NameAttributes(x))
  {
    hide Opt;
    ghost var start := stream.buffer;
    assert Wrote(stream, start, []);
    hide Wrote;
    ghost var done: seq<Attribute> := [];
    WriteText(stream, x.name != [], ATTR_NAME, x.name, start, done);
    done := Opt(x.name != [], Text(ATTR_NAME, x.name));
    assert [] + done == done;
    WriteText(stream, x.article != [], ATTR_ARTICLE, x.article, start, done);
    done := done + Opt(x.article != [], Text(ATTR_ARTICLE, x.article));
    WriteText(stream, x.pluralName != [], ATTR_PLURALNAME, x.pluralName, start, done);
  }

  method WriteCombat(stream: PropWriteStream, x: ItemData)
    modifies stream
    ensures Wrote(stream, old(stream.buffer), CombatAttributes(x))
  {
    hide Opt;
    ghost var start := stream.buffer;
    assert Wrote(stream, start, []);
    hide Wrote;
    ghost var done: seq<Attribute> := [];
    WriteNumber(stream, x.weight.Some?, ATTR_WEIGHT, Value(x.weight), start, done);
    done := OptNumber(x.weight, ATTR_WEIGHT);
    assert [] + done == done;
    WriteNumber(stream, x.attack.Some?, ATTR_ATTACK, Value(x.attack), start, done);
    done := done + OptNumber(x.attack, ATTR_ATTACK);
    WriteNumber(stream, x.attackSpeed.Some?, ATTR_ATTACK_SPEED, Value(x.attackSpeed), start, done);
    done := done + OptNumber(x.attackSpeed, ATTR_ATTACK_SPEED);
    WriteNumber(stream, x.defense.Some?, ATTR_DEFENSE, Value(x.defense), start, done);
    done := done + OptNumber(x.defense, ATTR_DEFENSE);
    WriteNumber(stream, x.extraDefense.Some?, ATTR_EXTRADEFENSE, Value(x.extraDefense), start, done);
  }

  method WriteLast(stream: PropWriteStream, x: ItemData)
    modifies stream
    ensures Wrote(stream, old(stream.buffer), LastAttributes(x))
  {
    hide Opt;
    ghost var start := stream.buffer;
    assert Wrote(stream, start, []);
    hide Wrote;
    ghost var done: seq<Attribute> := [];
    WriteNumber(stream, x.armor.Some?, ATTR_ARMOR, Value(x.armor), start, done);
    done := OptNumber(x.armor, ATTR_ARMOR);
    assert [] + done == done;
    WriteNumber(stream, x.hitChance.Some?, ATTR_HITCHANCE, Value(x.hitChance), start, done);
    done := done + OptNumber(x.hitChance, ATTR_HITCHANCE);
    WriteNumber(stream, x.shootRange.Some?, ATTR_SHOOTRANGE, Value(x.shootRange), start, done);
    done := done + OptNumber(x.shootRange, ATTR_SHOOTRANGE);
    WriteNumber(stream, x.decayTo.Some?, ATTR_DECAYTO, Value(x.decayTo), start, done);
    done := done + OptNumber(x.decayTo, ATTR_DECAYTO);
    WriteCustom(stream, x.custom, start, done);
  }

  /** Two stretches of attributes written one after the other are one stretch. */
  lemma {:induction false} WroteBoth(buffer: bytes, start: bytes, s: seq<Attribute>, t: seq<Attribute>)
    requires buffer == start + AttributesBytes(s) + AttributesBytes(t)
    ensures buffer == start + AttributesBytes(s + t)
  {
    WithAttributesAppend(_ => NO_TYPE, BlankItem(0), s, t);
  }

  const NO_TYPE := ItemType(false, false, false, false, 0, false, 0)

  /** `Item::serializeAttr` */
  method SerializeAttr(types: Types, x: ItemData, stream: PropWriteStream)
    modifies stream
    ensures stream.buffer == old(stream.buffer) + Serialized(types, x)
  {
    hide AttributesBytes, SubTypeAttributes, WritingAttributes, DecayAttributes, NameAttributes, CombatAttributes,
         LastAttributes;
    ghost var start := stream.buffer;
    WriteSubType(stream, types, x);
    ghost var s := SubTypeAttributes(types, x);
    WriteWriting(stream, x);
    WroteBoth(stream.buffer, start, s, WritingAttributes(x));
    s := s + WritingAttributes(x);
    WriteDecay(stream, x);
    WroteBoth(stream.buffer, start, s, DecayAttributes(x));
    s := s + DecayAttributes(x);
    WriteNames(stream, x);
    WroteBoth(stream.buffer, start, s, NameAttributes(x));
    s := s + NameAttributes(x);
    WriteCombat(stream, x);
    WroteBoth(stream.buffer, start, s, CombatAttributes(x));
    s := s + CombatAttributes(x);
    WriteLast(stream, x);
    WroteBoth(stream.buffer, start, s, LastAttributes(x));
  }

  /** `CustomAttribute::unserialize` */
  method UnserializeValue(stream: PropStream) returns (ok: bool, v: CustomValue)
    requires stream.Valid()
    modifies stream
    ensures stream.Valid() && stream.p >= old(stream.p)
    ensures ok ==> ReadValue(old(stream.Rest())) == Some((v, stream.Rest()))
    ensures !ok ==> ReadValue(old(stream.Rest())) == None
  {
    hide ReadNumber, ReadString;
    v := Blank;
    var pos, n: nat;
    ghost var b := stream.Rest();
    ok, pos := stream.Read(1);
    if !ok { return; }
    FirstByte(b);
    if pos == 1 {
      var s;
      ok, s := stream.ReadStringValue();
      v := Str(s);
    } else if pos == 2 {
      ok, n := stream.Read(8);
      v := Int64(Signed(8, n));
    } else if pos == 3 {
      ok, n := stream.Read(8);
      v := Double(n);
    } else if pos == 4 {
      ok, n := stream.Read(1);
      v := Bool(n != 0);
    } else {
      ok := false;
    }
  }

  lemma {:induction false} FirstByte(b: bytes)
    requires b != []
    ensures ReadNumber(1, b) == Some((b[0], b[1..]))
  {
    assert b[..1] == [b[0]];
    assert FromLittleEndian([b[0]]) == b[0] + 256 * FromLittleEndian([]);
  }

  /** The custom attributes read by `readAttr`. */
  method UnserializeEntries(stream: PropStream, n: nat, custom0: Option<seq<Entry>>)
    returns (ok: bool, custom: Option<seq<Entry>>)
    requires stream.Valid()
    modifies stream
    ensures stream.Valid() && stream.p >= old(stream.p)
    ensures ReadEntries(n, custom0, old(stream.Rest())).0 == ok
    ensures ReadEntries(n, custom0, old(stream.Rest())).1 == custom
    ensures ok ==> ReadEntries(n, custom0, old(stream.Rest())).2 == stream.Rest()
  {
    hide ReadString, ReadValue, WithCustom;
    custom := custom0;
    for i := 0 to n
      invariant stream.Valid() && stream.p >= old(stream.p)
      invariant ReadEntries(n, custom0, old(stream.Rest())) == ReadEntries(n - i, custom, stream.Rest())
    {
      var key, val;
      ok, key := stream.ReadStringValue();
      if !ok { return; }
      ok, val := UnserializeValue(stream);
      if !ok { return; }
      custom := WithCustom(custom, key, val);
    }
    ok := true;
  }

  /** `Item::unserializeAttr` with `readAttr` and `Container::readAttr`. */
  method UnserializeAttr(types: Types, x: ItemData, stream: PropStream) returns (ok: bool, y: ItemData, children: nat)
    requires stream.Valid()
    modifies stream
    ensures stream.Valid() && stream.p >= old(stream.p)
    ensures ok ==> ReadAttributes(types, x, old(stream.Rest())) == Done(y, stream.Rest(), children)
    ensures !ok ==> ReadAttributes(types, x, old(stream.Rest())) == Failed(y)
  {
    hide ReadNumber, ReadString, WithNumber, WithText, ReadEntries, Width;
    y, children := x, 0;
    var code: nat;
    while true
      invariant stream.Valid()
      invariant ReadAttributes(types, x, old(stream.Rest())) == ReadAttributes(types, y, stream.Rest())
      invariant stream.p >= old(stream.p)
      decreases |stream.data| - stream.p
    {
      ghost var b := stream.Rest();
      ok, code := stream.Read(1);
      if !ok { return true, y, 0; }
      FirstByte(b);
      if code == 0 { return; }
      if Width(code).Some? {
        var u;
        ok, u := stream.Read(Width(code).value);
        if !ok { return; }
        y := WithNumber(types, y, code, u);
      } else if IsText(code) {
        var s;
        ok, s := stream.ReadStringValue();
        if !ok { return; }
        y := WithText(y, code, s);
      } else if code == ATTR_CUSTOM_ATTRIBUTES {
        var n, custom;
        ok, n := stream.Read(8);
        if !ok { return; }
        ok, custom := UnserializeEntries(stream, n, y.custom);
        if !ok {
          y := y.(custom := custom);
          return;
        }
        y := y.(custom := custom);
      } else if code == ATTR_CONTAINER_ITEMS && types(y.id).container {
        ok, children := stream.Read(4);
        return;
      } else {
        return false, y, 0;
      }
    }
  }
}
