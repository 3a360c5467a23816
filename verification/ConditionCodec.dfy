/** The condition stream of a player (src/condition.cpp `serialize`, `unserialize`, `createCondition`;
  src/iologindata.cpp `loadPlayer`, `savePlayer`).

  A condition is six header attributes in a fixed order, the attributes of its class in any order, and
  an end marker.  The reader looks at the header to choose the class, then reads attributes up to the
  marker and pushes the condition to the front of a list. */
module ConditionCodec {
  import opened Wrappers
  import opened Enums
  import opened PropStreams
  import opened ItemCodec

  /** One round of damage; each number is 32 bits, signed. */
  datatype IntervalInfo = IntervalInfo(timeLeft: int, value: int, interval: int)

  /** The class of a condition with its own fields.  The factors of a speed formula are kept as their four
    bytes, an outfit as its ten.  While they are read, the arrays of `Attributes` hold what was read so far.
    Percentages and drunkenness are not in the stream.  `Plain` covers the classes without own fields. */
  datatype Detail =
    | Plain
    | Regeneration(healthTicks: nat, healthGain: nat, manaTicks: nat, manaGain: nat)
    | Soul(soulGain: nat, soulTicks: nat)
    | Speed(speedDelta: int, mina: nat, minb: nat, maxa: nat, maxb: nat)
    | Damage(delayed: bool, periodDamage: int, damageList: seq<IntervalInfo>)
    | Light(color: nat, level: nat, lightTicks: nat, lightInterval: nat)
    | Outfit(look: nat)
    | Attributes(skills: seq<int>, skillsPercent: seq<int>, specialSkills: seq<int>, stats: seq<int>,
                 statsPercent: seq<int>, disableDefense: bool)
    | Drunk(drunkenness: nat)

  datatype Condition = Condition(
    conditionType: nat, id: int, ticks: int, isBuff: bool, subId: nat, aggressive: bool, detail: Detail)

  const ATTR_TYPE: byte := 1
  const ATTR_ID: byte := 2
  const ATTR_TICKS: byte := 3
  const ATTR_HEALTHTICKS: byte := 4
  const ATTR_HEALTHGAIN: byte := 5
  const ATTR_MANATICKS: byte := 6
  const ATTR_MANAGAIN: byte := 7
  const ATTR_DELAYED: byte := 8
  const ATTR_OWNER: byte := 9
  const ATTR_INTERVALDATA: byte := 10
  const ATTR_SPEEDDELTA: byte := 11
  const ATTR_FORMULA_MINA: byte := 12
  const ATTR_FORMULA_MINB: byte := 13
  const ATTR_FORMULA_MAXA: byte := 14
  const ATTR_FORMULA_MAXB: byte := 15
  const ATTR_LIGHTCOLOR: byte := 16
  const ATTR_LIGHTLEVEL: byte := 17
  const ATTR_LIGHTTICKS: byte := 18
  const ATTR_LIGHTINTERVAL: byte := 19
  const ATTR_SOULTICKS: byte := 20
  const ATTR_SOULGAIN: byte := 21
  const ATTR_SKILLS: byte := 22
  const ATTR_STATS: byte := 23
  const ATTR_OUTFIT: byte := 24
  const ATTR_PERIODDAMAGE: byte := 25
  const ATTR_ISBUFF: byte := 26
  const ATTR_SUBID: byte := 27
  const ATTR_ISAGGRESSIVE: byte := 28
  const ATTR_DISABLEDEFENSE: byte := 29
  const ATTR_SPECIALSKILLS: byte := 30
  const ATTR_END: byte := 254

  const DRUNKENNESS := 25

  const CONDITION_MUTED := 0x10000
  const CONDITIONID_DEFAULT := -1
  const CONDITIONID_COMBAT := 0

  function Zeros(n: nat): seq<int> {
    seq(n, _ => 0)
  }

  /** The class that `createCondition` chooses, with the fields of its constructor. */
  function NewDetail(conditionType: nat): Option<Detail> {
    if conditionType in {0x1, 0x2, 0x4, 0x8, 0x8000, 0x100000, 0x200000, 0x400000} then Some(Damage(false, 0, []))
    else if conditionType in {0x10, 0x20} then Some(Speed(0, 0, 0, 0, 0))
    else if conditionType == 0x40 then Some(Outfit(0))
    else if conditionType == 0x100 then Some(Light(0, 0, 0, 0))
    else if conditionType == 0x2000 then Some(Regeneration(1000, 0, 1000, 0))
    else if conditionType == 0x4000 then Some(Soul(0, 0))
    else if conditionType == 0x80000 then Some(Attributes([], Zeros(SKILLS), [], [], Zeros(STATS), false))
    else if conditionType == 0x800 then Some(Drunk(DRUNKENNESS))
    else if conditionType in {0x80, 0x200, 0x400, 0x1000, 0x10000, 0x20000, 0x40000, 0x800000, 0x1000000,
      0x2000000} then
      Some(Plain)
    else None
  }

  predicate SameClass(d: Detail, e: Detail) {
    && (d.Plain? <==> e.Plain?) && (d.Regeneration? <==> e.Regeneration?) && (d.Soul? <==> e.Soul?)
    && (d.Speed? <==> e.Speed?) && (d.Damage? <==> e.Damage?) && (d.Light? <==> e.Light?)
    && (d.Attributes? <==> e.Attributes?) && (d.Drunk? <==> e.Drunk?)
  }

  /** `Condition::createCondition` on header values; a damage condition ignores the ticks. */
  function NewCondition(conditionType: nat, id: nat, ticks: nat, buff: nat, subId: nat, aggressive: nat): Option<Condition> {
    match NewDetail(conditionType)
    case None => None
    case Some(d) =>
      Some(Condition(conditionType, Signed(1, id % 256), if d.Damage? then 0 else Signed(4, ticks),
                     buff != 0, subId, aggressive != 0, d))
  }

  // ---- attributes -------------------------------------------------------------------------------

  datatype Field = Field(code: byte, payload: bytes)

  /** The codes of the arrays of attributes: one value each. */
  predicate IsArray(code: byte) {
    code == ATTR_SKILLS || code == ATTR_STATS || code == ATTR_SPECIALSKILLS
  }

  /** The values of an array that are read next; what is behind its end is dropped. */
  function Extended(d: Detail, code: byte, list: seq<int>): (r: Detail)
    requires d.Attributes? && IsArray(code)
    ensures SameClass(r, d)
  {
    if code == ATTR_SKILLS then d.(skills := UpTo(SKILLS, d.skills + list))
    else if code == ATTR_STATS then d.(stats := UpTo(STATS, d.stats + list))
    else d.(specialSkills := UpTo(SPECIAL_SKILLS, d.specialSkills + list))
  }

  function UpTo(n: nat, s: seq<int>): seq<int> {
    if |s| <= n then s else s[..n]
  }

  /** Nothing more is read: the rest of each array is zero. */
  function Filled(c: Condition): Condition {
    if c.detail.Attributes? then
      var d := c.detail;
      c.(detail := d.(skills := FillUp(SKILLS, d.skills), stats := FillUp(STATS, d.stats),
                      specialSkills := FillUp(SPECIAL_SKILLS, d.specialSkills)))
    else c
  }

  function FillUp(n: nat, s: seq<int>): seq<int> {
    if |s| < n then s + Zeros(n - |s|) else s
  }

  /** The number of bytes after an attribute code, for a condition of the given class. */
  function Width(d: Detail, code: byte): Option<nat> {
    if d.Regeneration? && ATTR_HEALTHTICKS <= code <= ATTR_MANAGAIN then Some(4)
    else if d.Soul? && (code == ATTR_SOULGAIN || code == ATTR_SOULTICKS) then Some(4)
    else if d.Speed? && ATTR_SPEEDDELTA <= code <= ATTR_FORMULA_MAXB then Some(4)
    else if d.Light? && ATTR_LIGHTCOLOR <= code <= ATTR_LIGHTINTERVAL then Some(4)
    else if d.Outfit? && code == ATTR_OUTFIT then Some(10)
    else if d.Damage? && code == ATTR_DELAYED then Some(1)
    else if d.Damage? && (code == ATTR_PERIODDAMAGE || code == ATTR_OWNER) then Some(4)
    else if d.Damage? && code == ATTR_INTERVALDATA then Some(12)
    else if d.Attributes? && IsArray(code) then Some(4)
    else if d.Attributes? && code == ATTR_DISABLEDEFENSE then Some(1)
    else if code in {ATTR_TYPE, ATTR_ID, ATTR_TICKS, ATTR_SUBID} then Some(4)
    else if code in {ATTR_ISBUFF, ATTR_ISAGGRESSIVE} then Some(1)
    else None
  }

  /** A further round of damage prolongs the condition, unless it lasts for ever. */
  function Prolonged(ticks: int, interval: int): int {
    if ticks == -1 then -1 else Signed(4, Truncate(4, ticks + interval))
  }

  function IntervalOf(p: bytes): IntervalInfo
    requires |p| == 12
  {
    IntervalInfo(Signed(4, FromLittleEndian(p[..4])), Signed(4, FromLittleEndian(p[4..8])),
      Signed(4, FromLittleEndian(p[8..])))
  }

  /** `unserializeProp` of the class, then of `Condition`, once the bytes of the attribute are there. */
  function WithField(c: Condition, code: byte, p: bytes): (r: Condition)
    requires Width(c.detail, code) == Some(|p|)
    ensures SameClass(r.detail, c.detail)
  {
    var u := FromLittleEndian(p);
    var d := c.detail;
    if d.Regeneration? && code == ATTR_HEALTHTICKS then c.(detail := d.(healthTicks := u))
    else if d.Regeneration? && code == ATTR_HEALTHGAIN then c.(detail := d.(healthGain := u))
    else if d.Regeneration? && code == ATTR_MANATICKS then c.(detail := d.(manaTicks := u))
    else if d.Regeneration? && code == ATTR_MANAGAIN then c.(detail := d.(manaGain := u))
    else if d.Soul? && code == ATTR_SOULGAIN then c.(detail := d.(soulGain := u))
    else if d.Soul? && code == ATTR_SOULTICKS then c.(detail := d.(soulTicks := u))
    else if d.Speed? && code == ATTR_SPEEDDELTA then c.(detail := d.(speedDelta := Signed(4, u)))
    else if d.Speed? && code == ATTR_FORMULA_MINA then c.(detail := d.(mina := u))
    else if d.Speed? && code == ATTR_FORMULA_MINB then c.(detail := d.(minb := u))
    else if d.Speed? && code == ATTR_FORMULA_MAXA then c.(detail := d.(maxa := u))
    else if d.Speed? && code == ATTR_FORMULA_MAXB then c.(detail := d.(maxb := u))
    else if d.Light? && code == ATTR_LIGHTCOLOR then c.(detail := d.(color := u % 256))
    else if d.Light? && code == ATTR_LIGHTLEVEL then c.(detail := d.(level := u % 256))
    else if d.Light? && code == ATTR_LIGHTTICKS then c.(detail := d.(lightTicks := u))
    else if d.Light? && code == ATTR_LIGHTINTERVAL then c.(detail := d.(lightInterval := u))
    else if d.Outfit? && code == ATTR_OUTFIT then c.(detail := d.(look := u))
    else if d.Damage? && code == ATTR_DELAYED then c.(detail := d.(delayed := u != 0))
    else if d.Damage? && code == ATTR_PERIODDAMAGE then c.(detail := d.(periodDamage := Signed(4, u)))
    else if d.Damage? && code == ATTR_OWNER then c
    else if d.Damage? && code == ATTR_INTERVALDATA then
      var info := IntervalOf(p);
      c.(detail := d.(damageList := d.damageList + [info]), ticks := Prolonged(c.ticks, info.interval))
    else if d.Attributes? && IsArray(code) then c.(detail := Extended(d, code, [Signed(4, u)]))
    else if d.Attributes? && code == ATTR_DISABLEDEFENSE then c.(detail := d.(disableDefense := u != 0))
    else if code == ATTR_TYPE then c.(conditionType := u)
    else if code == ATTR_ID then c.(id := Signed(1, u % 256))
    else if code == ATTR_TICKS then c.(ticks := Signed(4, u))
    else if code == ATTR_ISBUFF then c.(isBuff := u != 0)
    else if code == ATTR_SUBID then c.(subId := u)
    else c.(aggressive := u != 0)
  }

  /** `Condition::unserialize`: success, the condition, and the bytes after the last one consumed. */
  function ReadFields(c: Condition, b: bytes): (r: (bool, Condition, bytes))
    ensures |r.2| <= |b|
    decreases |b|
  {
    if b == [] then (true, Filled(c), [])
    else if b[0] == ATTR_END then (true, Filled(c), b[1..])
    else
      match Width(c.detail, b[0])
      case None => (false, c, b[1..])
      case Some(w) =>
        if |b| - 1 < w then (false, c, b[1..])
        else ReadFields(WithField(c, b[0], b[1..w + 1]), b[w + 1..])
  }

  /** One attribute of the header: its code must come next. */
  function ReadTagged(code: byte, n: nat, b: bytes): (r: Option<(nat, bytes)>)
    ensures r.Some? ==> |r.value.1| < |b|
  {
    if b == [] || b[0] != code then None else ReadNumber(n, b[1..])
  }

  /** `Condition::createCondition(propStream)` */
  function ReadHeader(b: bytes): (r: Option<(Condition, bytes)>)
    ensures r.Some? ==> |r.value.1| < |b|
  {
    match ReadTagged(ATTR_TYPE, 4, b)
    case None => None
    case Some((conditionType, b1)) =>
      match ReadTagged(ATTR_ID, 4, b1)
      case None => None
      case Some((id, b2)) =>
        match ReadTagged(ATTR_TICKS, 4, b2)
        case None => None
        case Some((ticks, b3)) =>
          match ReadTagged(ATTR_ISBUFF, 1, b3)
          case None => None
          case Some((buff, b4)) =>
            match ReadTagged(ATTR_SUBID, 4, b4)
            case None => None
            case Some((subId, b5)) =>
              match ReadTagged(ATTR_ISAGGRESSIVE, 1, b5)
              case None => None
              case Some((aggressive, b6)) =>
                match NewCondition(conditionType, id, ticks, buff, subId, aggressive)
                case None => None
                case Some(c) => Some((c, b6))
  }

  /** The loop of `loadPlayer`: a condition that fails to read is dropped and reading goes on behind it. */
  function LoadedList(stored: seq<Condition>, b: bytes): seq<Condition>
    decreases |b|
  {
    match ReadHeader(b)
    case None => stored
    case Some((c, b1)) =>
      var (ok, d, b2) := ReadFields(c, b1);
      LoadedList(if ok then [d] + stored else stored, b2)
  }

  // ---- writing ----------------------------------------------------------------------------------

  function FieldBytes(f: Field): bytes {
    [f.code] + f.payload
  }

  function FieldsBytes(fs: seq<Field>): bytes {
    if fs == [] then [] else FieldBytes(fs[0]) + FieldsBytes(fs[1..])
  }

  function Num(code: byte, n: nat, v: int): Field {
    Field(code, NumberBytes(n, v))
  }

  function Flag(code: byte, b: bool): Field {
    Num(code, 1, if b then 1 else 0)
  }

  /** `Condition::serialize` */
  function HeaderFields(c: Condition): seq<Field> {
    [Num(ATTR_TYPE, 4, c.conditionType), Num(ATTR_ID, 4, c.id), Num(ATTR_TICKS, 4, c.ticks),
     Flag(ATTR_ISBUFF, c.isBuff), Num(ATTR_SUBID, 4, c.subId), Flag(ATTR_ISAGGRESSIVE, c.aggressive)]
  }

  function IntervalField(i: IntervalInfo): Field {
    Field(ATTR_INTERVALDATA, NumberBytes(4, i.timeLeft) + NumberBytes(4, i.value) + NumberBytes(4, i.interval))
  }

  function IntervalFields(list: seq<IntervalInfo>): seq<Field> {
    if list == [] then [] else [IntervalField(list[0])] + IntervalFields(list[1..])
  }

  function ArrayFields(code: byte, list: seq<int>): seq<Field> {
    if list == [] then [] else [Num(code, 4, list[0])] + ArrayFields(code, list[1..])
  }

  /** What the class adds to the header. */
  function DetailFields(d: Detail): seq<Field> {
    match d
    case Plain => []
    case Regeneration(ht, hg, mt, mg) =>
      [Num(ATTR_HEALTHTICKS, 4, ht), Num(ATTR_HEALTHGAIN, 4, hg), Num(ATTR_MANATICKS, 4, mt), Num(ATTR_MANAGAIN, 4, mg)]
    case Soul(gain, ticks) =>
      [Num(ATTR_SOULGAIN, 4, gain), Num(ATTR_SOULTICKS, 4, ticks)]
    case Speed(delta, mina, minb, maxa, maxb) =>
      [Num(ATTR_SPEEDDELTA, 4, delta), Num(ATTR_FORMULA_MINA, 4, mina), Num(ATTR_FORMULA_MINB, 4, minb),
       Num(ATTR_FORMULA_MAXA, 4, maxa), Num(ATTR_FORMULA_MAXB, 4, maxb)]
    case Damage(delayed, period, list) =>
      [Flag(ATTR_DELAYED, delayed), Num(ATTR_PERIODDAMAGE, 4, period)] + IntervalFields(list)
    case Light(color, level, ticks, interval) =>
      [Num(ATTR_LIGHTCOLOR, 4, color), Num(ATTR_LIGHTLEVEL, 4, level), Num(ATTR_LIGHTTICKS, 4, ticks),
       Num(ATTR_LIGHTINTERVAL, 4, interval)]
    case Outfit(look) => [Num(ATTR_OUTFIT, 10, look)]
    case Attributes(skills, _, specialSkills, stats, _, disableDefense) =>
      ArrayFields(ATTR_SKILLS, skills) + (ArrayFields(ATTR_STATS, stats) + ([Flag(ATTR_DISABLEDEFENSE, disableDefense)]
        + ArrayFields(ATTR_SPECIALSKILLS, specialSkills)))
    case Drunk(_) => []
  }

  function Saved(c: Condition): bytes {
    FieldsBytes(HeaderFields(c)) + FieldsBytes(DetailFields(c.detail)) + [ATTR_END]
  }

  /** `Condition::isPersistent` */
  predicate IsPersistent(c: Condition) {
    c.ticks != -1 && (c.id == CONDITIONID_DEFAULT || c.id == CONDITIONID_COMBAT || c.conditionType == CONDITION_MUTED)
  }

  /** The stream that `savePlayer` writes. */
  function SavedList(cs: seq<Condition>): bytes {
    if cs == [] then [] else (if IsPersistent(cs[0]) then Saved(cs[0]) else []) + SavedList(cs[1..])
  }

  // ---- what comes back --------------------------------------------------------------------------

  predicate Unsigned32(v: int) { 0 <= v < Pow256(4) }

  predicate Signed32(v: int) { -(Pow256(4) / 2) <= v < Pow256(4) / 2 }

  predicate IntervalFits(i: IntervalInfo) {
    Signed32(i.timeLeft) && Signed32(i.value) && Signed32(i.interval)
  }

  ghost predicate IsArrayOf(n: nat, list: seq<int>) {
    |list| == n && forall v :: v in list ==> Signed32(v)
  }

  /** The fields of a condition have the widths of their C++ types, and its class is that of its type. */
  ghost predicate Valid(c: Condition) {
    && NewDetail(c.conditionType).Some? && SameClass(NewDetail(c.conditionType).value, c.detail)
    && -128 <= c.id < 128 && Signed32(c.ticks) && Unsigned32(c.subId)
    && match c.detail
       case Plain => true
       case Regeneration(ht, hg, mt, mg) => Unsigned32(ht) && Unsigned32(hg) && Unsigned32(mt) && Unsigned32(mg)
       case Soul(gain, ticks) => Unsigned32(gain) && Unsigned32(ticks)
       case Speed(delta, mina, minb, maxa, maxb) =>
         Signed32(delta) && Unsigned32(mina) && Unsigned32(minb) && Unsigned32(maxa) && Unsigned32(maxb)
       case Damage(_, period, list) => Signed32(period) && forall i :: i in list ==> IntervalFits(i)
       case Light(color, level, ticks, interval) => color < 256 && level < 256 && Unsigned32(ticks) && Unsigned32(interval)
       case Outfit(look) => look < Pow256(10)
       case Attributes(skills, skillsPercent, specialSkills, stats, statsPercent, _) =>
         IsArrayOf(SKILLS, skills) && IsArrayOf(SKILLS, skillsPercent) && IsArrayOf(SPECIAL_SKILLS, specialSkills)
         && IsArrayOf(STATS, stats) && IsArrayOf(STATS, statsPercent)
       case Drunk(drunkenness) => drunkenness < 256
  }

  /** The duration of a damage condition after its rounds have been read one by one. */
  function Rounds(ticks: int, list: seq<IntervalInfo>): int
    decreases list
  {
    if list == [] then ticks else Rounds(Prolonged(ticks, list[0].interval), list[1..])
  }

  /** The condition that comes back: all the same but for the duration of a damage condition, the percentages of
    attributes, and drunkenness. */
  function Restored(c: Condition): Condition {
    match c.detail
    case Damage(_, _, damageList) => c.(ticks := Rounds(0, damageList))
    case Attributes(_, _, _, _, _, _) =>
      c.(detail := c.detail.(skillsPercent := Zeros(SKILLS), statsPercent := Zeros(STATS)))
    case Drunk(_) => c.(detail := Drunk(DRUNKENNESS))
    case _ => c
  }

  function RestoredList(cs: seq<Condition>): seq<Condition> {
    if cs == [] then [] else RestoredList(cs[1..]) + (if IsPersistent(cs[0]) then [Restored(cs[0])] else [])
  }

  // ---- proofs -----------------------------------------------------------------------------------

  lemma {:induction false} NumberBack(n: nat, v: int)
    ensures FromLittleEndian(NumberBytes(n, v)) == Truncate(n, v)
    ensures 0 <= v < Pow256(n) ==> FromLittleEndian(NumberBytes(n, v)) == v
    ensures n > 0 && -(Pow256(n) / 2) <= v < Pow256(n) / 2 ==> Signed(n, FromLittleEndian(NumberBytes(n, v))) == v
  {
    NumberRoundTrip(n, v, []);
    assert NumberBytes(n, v) + [] == NumberBytes(n, v);
    assert NumberBytes(n, v)[..n] == NumberBytes(n, v);
    UnsignedRoundTrip(n, v);
    if n > 0 { SignedRoundTrip(n, v); }
  }

  lemma {:induction false} FlagBack(b: bool)
    ensures FromLittleEndian(NumberBytes(1, if b then 1 else 0)) == if b then 1 else 0
  {
    assert Pow256(1) == 256;
    NumberBack(1, if b then 1 else 0);
  }

  /** An id is written in 32 bits with its sign and read back through its low byte. */
  lemma {:induction false} IdBack(id: int)
    requires -128 <= id < 128
    ensures Signed(1, Truncate(4, id) % 256) == id
  {
    assert Pow256(1) == 256;
    assert Pow256(4) == 0x1_0000_0000 by { assert Pow256(2) == 65536; assert Pow256(3) == 16777216; }
  }

  lemma {:induction false} IntervalBack(i: IntervalInfo)
    requires IntervalFits(i)
    ensures |IntervalField(i).payload| == 12 && IntervalOf(IntervalField(i).payload) == i
  {
    hide NumberBytes, FromLittleEndian, Signed, Pow256;
    var p := IntervalField(i).payload;
    assert p[..4] == NumberBytes(4, i.timeLeft) && p[4..8] == NumberBytes(4, i.value)
      && p[8..] == NumberBytes(4, i.interval);
    NumberBack(4, i.timeLeft);
    NumberBack(4, i.value);
    NumberBack(4, i.interval);
  }

  /** Fields whose codes and widths belong to the class. */
  ghost predicate Fitting(d: Detail, fs: seq<Field>) {
    forall f :: f in fs ==> f.code != ATTR_END && Width(d, f.code) == Some(|f.payload|)
  }

  lemma {:induction false} FittingSame(d: Detail, e: Detail, fs: seq<Field>)
    requires SameClass(d, e) && Fitting(d, fs)
    ensures Fitting(e, fs)
  {
  }

  function WithFields(c: Condition, fs: seq<Field>): (r: Condition)
    requires Fitting(c.detail, fs)
    decreases |fs|
  {
    if fs == [] then c else
      var d := WithField(c, fs[0].code, fs[0].payload);
      FittingSame(c.detail, d.detail, fs[1..]);
      WithFields(d, fs[1..])
  }

  lemma {:induction false} FirstField(fs: seq<Field>, rest: bytes)
    requires fs != []
    ensures var b, w := FieldsBytes(fs) + [ATTR_END] + rest, |fs[0].payload|;
      && |b| > w && b[0] == fs[0].code && b[1..w + 1] == fs[0].payload
      && b[w + 1..] == FieldsBytes(fs[1..]) + [ATTR_END] + rest
  {
    assert FieldsBytes(fs) + [ATTR_END] + rest ==
      [fs[0].code] + (fs[0].payload + (FieldsBytes(fs[1..]) + [ATTR_END] + rest));
    hide FieldsBytes;
  }

  /** Reading written fields applies them one by one. */
  lemma {:induction false} FieldsBack(c: Condition, fs: seq<Field>, rest: bytes)
    requires Fitting(c.detail, fs)
    ensures ReadFields(c, FieldsBytes(fs) + [ATTR_END] + rest) == (true, Filled(WithFields(c, fs)), rest)
    decreases |fs|
  {
    hide WithField, Width;
    if fs == [] {
      assert FieldsBytes(fs) + [ATTR_END] + rest == [ATTR_END] + rest;
      assert ([ATTR_END] + rest)[1..] == rest;
    } else {
      FirstField(fs, rest);
      hide FieldsBytes;
      var d := WithField(c, fs[0].code, fs[0].payload);
      FittingSame(c.detail, d.detail, fs[1..]);
      FieldsBack(d, fs[1..], rest);
    }
  }

  lemma {:induction false} TaggedBack(code: byte, n: nat, v: int, rest: bytes)
    ensures ReadTagged(code, n, FieldBytes(Num(code, n, v)) + rest) == Some((Truncate(n, v), rest))
  {
    hide NumberBytes, ReadNumber, Truncate;
    assert (FieldBytes(Num(code, n, v)) + rest)[1..] == NumberBytes(n, v) + rest;
    NumberRoundTrip(n, v, rest);
  }

  lemma {:induction false} HeaderSplit(c: Condition, rest: bytes)
    ensures FieldsBytes(HeaderFields(c)) + rest ==
      FieldBytes(Num(ATTR_TYPE, 4, c.conditionType))
      + (FieldBytes(Num(ATTR_ID, 4, c.id)) + (FieldBytes(Num(ATTR_TICKS, 4, c.ticks))
      + (FieldBytes(Flag(ATTR_ISBUFF, c.isBuff)) + (FieldBytes(Num(ATTR_SUBID, 4, c.subId))
      + (FieldBytes(Flag(ATTR_ISAGGRESSIVE, c.aggressive)) + rest)))))
  {
    hide FieldBytes, Num, Flag;
    var fs := HeaderFields(c);
    assert fs[1..][1..] == fs[2..] && fs[2..][1..] == fs[3..] && fs[3..][1..] == fs[4..] && fs[4..][1..] == fs[5..]
      && fs[5..][1..] == [];
    assert FieldsBytes(fs[5..]) == FieldBytes(fs[5]) + FieldsBytes([]);
    assert FieldsBytes(fs[4..]) == FieldBytes(fs[4]) + FieldsBytes(fs[5..]);
    assert FieldsBytes(fs[3..]) == FieldBytes(fs[3]) + FieldsBytes(fs[4..]);
    assert FieldsBytes(fs[2..]) == FieldBytes(fs[2]) + FieldsBytes(fs[3..]);
    assert FieldsBytes(fs[1..]) == FieldBytes(fs[1]) + FieldsBytes(fs[2..]);
    assert FieldsBytes(fs) == FieldBytes(fs[0]) + FieldsBytes(fs[1..]);
    hide FieldsBytes, HeaderFields;
  }

  /** The condition right after its header. */
  function Fresh(c: Condition): Condition
    requires NewDetail(c.conditionType).Some?
  {
    c.(detail := NewDetail(c.conditionType).value, ticks := if c.detail.Damage? then 0 else c.ticks)
  }

  lemma {:induction false} HeaderBack(c: Condition, rest: bytes)
    requires Valid(c)
    ensures ReadHeader(FieldsBytes(HeaderFields(c)) + rest) == Some((Fresh(c), rest))
  {
    HeaderSplit(c, rest);
    var r6 := rest;
    var r5 := FieldBytes(Flag(ATTR_ISAGGRESSIVE, c.aggressive)) + r6;
    var r4 := FieldBytes(Num(ATTR_SUBID, 4, c.subId)) + r5;
    var r3 := FieldBytes(Flag(ATTR_ISBUFF, c.isBuff)) + r4;
    var r2 := FieldBytes(Num(ATTR_TICKS, 4, c.ticks)) + r3;
    var r1 := FieldBytes(Num(ATTR_ID, 4, c.id)) + r2;
    TaggedBack(ATTR_TYPE, 4, c.conditionType, r1);
    TaggedBack(ATTR_ID, 4, c.id, r2);
    TaggedBack(ATTR_TICKS, 4, c.ticks, r3);
    TaggedBack(ATTR_ISBUFF, 1, if c.isBuff then 1 else 0, r4);
    TaggedBack(ATTR_SUBID, 4, c.subId, r5);
    TaggedBack(ATTR_ISAGGRESSIVE, 1, if c.aggressive then 1 else 0, r6);
    HeaderValues(c);
    hide ReadTagged, FieldBytes, FieldsBytes, HeaderFields, Truncate, Signed, NewDetail, Valid, Num;
  }

  lemma {:induction false} HeaderValues(c: Condition)
    requires Valid(c)
    ensures NewCondition(Truncate(4, c.conditionType), Truncate(4, c.id), Truncate(4, c.ticks),
      Truncate(1, if c.isBuff then 1 else 0), Truncate(4, c.subId), Truncate(1, if c.aggressive then 1 else 0)) ==
        Some(Fresh(c))
  {
    assert Pow256(1) == 256;
    assert Pow256(4) == 0x1_0000_0000 by { assert Pow256(2) == 65536; assert Pow256(3) == 16777216; }
    assert c.conditionType < Pow256(4);
    UnsignedRoundTrip(4, c.conditionType);
    UnsignedRoundTrip(4, c.subId);
    SignedRoundTrip(4, c.ticks);
    IdBack(c.id);
    hide Truncate, Signed;
    UnsignedRoundTrip(1, 0);
    UnsignedRoundTrip(1, 1);
  }

  lemma {:induction false} OneField(c: Condition, f: Field, fs: seq<Field>)
    requires Fitting(c.detail, [f] + fs)
    ensures Fitting(c.detail, fs) && Fitting(WithField(c, f.code, f.payload).detail, fs)
    ensures WithFields(c, [f] + fs) == WithFields(WithField(c, f.code, f.payload), fs)
  {
    hide WithField, Width;
    assert ([f] + fs)[1..] == fs;
    FittingSame(c.detail, WithField(c, f.code, f.payload).detail, fs);
  }

  lemma {:induction false} FourFields(c: Condition, f: Field, g: Field, h: Field, k: Field)
    requires Fitting(c.detail, [f, g, h, k])
    ensures var c1 := WithField(c, f.code, f.payload);
      Width(c1.detail, g.code) == Some(|g.payload|) &&
      var c2 := WithField(c1, g.code, g.payload);
      Width(c2.detail, h.code) == Some(|h.payload|) &&
      var c3 := WithField(c2, h.code, h.payload);
      Width(c3.detail, k.code) == Some(|k.payload|) &&
      WithFields(c, [f, g, h, k]) == WithField(c3, k.code, k.payload)
  {
    hide WithField, Width, WithFields;
    assert [f, g, h, k] == [f] + [g, h, k] && [g, h, k] == [g] + [h, k] && [h, k] == [h] + [k] && [k] == [k] + [];
    OneField(c, f, [g, h, k]);
    var c1 := WithField(c, f.code, f.payload);
    assert g in [g, h, k] && h in [g, h, k] && k in [g, h, k];
    OneField(c1, g, [h, k]);
    var c2 := WithField(c1, g.code, g.payload);
    assert h in [h, k] && k in [h, k];
    OneField(c2, h, [k]);
    var c3 := WithField(c2, h.code, h.payload);
    assert k in [k];
    OneField(c3, k, []);
    NoFields(WithField(c3, k.code, k.payload));
  }

  lemma {:induction false} RegenerationBack(c: Condition, x: Condition)
    requires Valid(x) && x.detail.Regeneration? && c.detail.Regeneration?
    ensures Fitting(c.detail, DetailFields(x.detail)) && WithFields(c, DetailFields(x.detail)) == c.(detail := x.detail)
  {
    hide FromLittleEndian, NumberBytes, Pow256, Signed, WithFields;
    var d, fs := x.detail, DetailFields(x.detail);
    NumberBack(4, d.healthTicks);
    NumberBack(4, d.healthGain);
    NumberBack(4, d.manaTicks);
    NumberBack(4, d.manaGain);
    FourFields(c, fs[0], fs[1], fs[2], fs[3]);
  }

  lemma {:induction false} SoulBack(c: Condition, x: Condition)
    requires Valid(x) && x.detail.Soul? && c.detail.Soul?
    ensures Fitting(c.detail, DetailFields(x.detail)) && WithFields(c, DetailFields(x.detail)) == c.(detail := x.detail)
  {
    hide FromLittleEndian, NumberBytes, Pow256, Signed;
    var d, fs := x.detail, DetailFields(x.detail);
    NumberBack(4, d.soulGain);
    NumberBack(4, d.soulTicks);
    assert fs[1..][1..] == [];
    var c1 := WithField(c, fs[0].code, fs[0].payload);
    var c2 := WithField(c1, fs[1].code, fs[1].payload);
    assert WithFields(c1, fs[1..]) == c2;
  }

  lemma {:induction false} SpeedBack(c: Condition, x: Condition)
    requires Valid(x) && x.detail.Speed? && c.detail.Speed?
    ensures Fitting(c.detail, DetailFields(x.detail)) && WithFields(c, DetailFields(x.detail)) == c.(detail := x.detail)
  {
    hide FromLittleEndian, NumberBytes, Pow256, Signed, WithFields;
    var d, fs := x.detail, DetailFields(x.detail);
    NumberBack(4, d.speedDelta);
    NumberBack(4, d.mina);
    NumberBack(4, d.minb);
    NumberBack(4, d.maxa);
    NumberBack(4, d.maxb);
    assert fs == [fs[0]] + [fs[1], fs[2], fs[3], fs[4]];
    OneField(c, fs[0], [fs[1], fs[2], fs[3], fs[4]]);
    FourFields(WithField(c, fs[0].code, fs[0].payload), fs[1], fs[2], fs[3], fs[4]);
  }

  lemma {:induction false} ByteFits()
    ensures 256 < Pow256(4)
  {
    assert Pow256(4) == 256 * Pow256(3) && Pow256(3) == 256 * Pow256(2) && Pow256(2) == 65536;
  }

  lemma {:induction false} LightBack(c: Condition, x: Condition)
    requires Valid(x) && x.detail.Light? && c.detail.Light?
    ensures Fitting(c.detail, DetailFields(x.detail)) && WithFields(c, DetailFields(x.detail)) == c.(detail := x.detail)
  {
    hide FromLittleEndian, NumberBytes, Pow256, Signed, WithFields;
    var d, fs := x.detail, DetailFields(x.detail);
    ByteFits();
    NumberBack(4, d.color);
    NumberBack(4, d.level);
    NumberBack(4, d.lightTicks);
    NumberBack(4, d.lightInterval);
    FourFields(c, fs[0], fs[1], fs[2], fs[3]);
  }

  lemma {:induction false} OutfitBack(c: Condition, x: Condition)
    requires Valid(x) && x.detail.Outfit? && c.detail.Outfit?
    ensures Fitting(c.detail, DetailFields(x.detail)) && WithFields(c, DetailFields(x.detail)) == c.(detail := x.detail)
  {
    hide FromLittleEndian, NumberBytes, Pow256, Signed;
    NumberBack(10, x.detail.look);
  }

  /** The rounds of damage are appended one by one, each prolonging the condition. */
  lemma {:induction false} RoundsBack(c: Condition, list: seq<IntervalInfo>)
    requires c.detail.Damage? && forall i :: i in list ==> IntervalFits(i)
    ensures Fitting(c.detail, IntervalFields(list))
    ensures WithFields(c, IntervalFields(list))
      == c.(ticks := Rounds(c.ticks, list), detail := c.detail.(damageList := c.detail.damageList + list))
    decreases |list|
  {
    if list == [] {
      assert c.detail.damageList + list == c.detail.damageList;
    } else {
      var f := IntervalField(list[0]);
      assert IntervalFields(list) == [f] + IntervalFields(list[1..]);
      assert Rounds(c.ticks, list) == Rounds(Prolonged(c.ticks, list[0].interval), list[1..]);
      assert c.detail.damageList + [list[0]] + list[1..] == c.detail.damageList + list;
      RoundBack(c, list[0]);
      hide *;
      var d := WithField(c, f.code, f.payload);
      assert forall i :: i in list[1..] ==> i in list;
      RoundsBack(d, list[1..]);
      FittingSame(d.detail, c.detail, IntervalFields(list[1..]));
      FirstFits(c, f, IntervalFields(list[1..]));
      OneField(c, f, IntervalFields(list[1..]));
    }
  }

  lemma {:induction false} FirstFits(c: Condition, f: Field, fs: seq<Field>)
    requires f.code != ATTR_END && Width(c.detail, f.code) == Some(|f.payload|) && Fitting(c.detail, fs)
    ensures Fitting(c.detail, [f] + fs)
  {
    hide Width;
    assert ([f] + fs)[1..] == fs;
  }

  lemma {:induction false} RoundBack(c: Condition, i: IntervalInfo)
    requires c.detail.Damage? && IntervalFits(i)
    ensures var f := IntervalField(i);
      f.code != ATTR_END && Width(c.detail, f.code) == Some(|f.payload|) &&
      WithField(c, f.code, f.payload)
      == c.(ticks := Prolonged(c.ticks, i.interval), detail := c.detail.(damageList := c.detail.damageList + [i]))
  {
    IntervalBack(i);
    hide IntervalOf, IntervalFits, Prolonged;
  }

  lemma {:induction false} DamageBack(c: Condition, x: Condition)
    requires Valid(x) && x.detail.Damage? && c.detail == Damage(false, 0, [])
    ensures Fitting(c.detail, DetailFields(x.detail))
    ensures WithFields(c, DetailFields(x.detail)) == c.(ticks := Rounds(c.ticks, x.detail.damageList), detail := x.detail)
  {
    hide FromLittleEndian, NumberBytes, Pow256, Signed, IntervalFields, Rounds;
    var d, fs := x.detail, DetailFields(x.detail);
    NumberBack(4, d.periodDamage);
    FlagBack(d.delayed);
    var c1 := WithField(c, fs[0].code, fs[0].payload);
    var c2 := WithField(c1, fs[1].code, fs[1].payload);
    assert c2 == c.(detail := Damage(d.delayed, d.periodDamage, []));
    RoundsBack(c2, d.damageList);
    assert [] + d.damageList == d.damageList;
    assert fs[1..][1..] == IntervalFields(d.damageList);
    FittingSame(c2.detail, c.detail, IntervalFields(d.damageList));
    assert WithFields(c1, fs[1..]) == WithFields(c2, IntervalFields(d.damageList));
  }

  /** Applying written fields goes through two lists as through one. */
  lemma {:induction false} WithFieldsJoined(c: Condition, fs: seq<Field>, gs: seq<Field>)
    requires Fitting(c.detail, fs) && Fitting(c.detail, gs)
    ensures Fitting(c.detail, fs + gs) && Fitting(WithFields(c, fs).detail, gs)
    ensures WithFields(c, fs + gs) == WithFields(WithFields(c, fs), gs)
    decreases |fs|
  {
    hide WithField, Width;
    if fs == [] {
      assert fs + gs == gs;
    } else {
      assert (fs + gs)[1..] == fs[1..] + gs;
      var d := WithField(c, fs[0].code, fs[0].payload);
      FittingSame(c.detail, d.detail, fs[1..]);
      FittingSame(c.detail, d.detail, gs);
      WithFieldsJoined(d, fs[1..], gs);
    }
  }

  lemma {:induction false} OneValueBack(c: Condition, code: byte, v: int)
    requires c.detail.Attributes? && IsArray(code) && Signed32(v)
    ensures var f := Num(code, 4, v);
      f.code != ATTR_END && Width(c.detail, f.code) == Some(|f.payload|) &&
      WithField(c, f.code, f.payload) == c.(detail := Extended(c.detail, code, [v]))
  {
    NumberBack(4, v);
    hide FromLittleEndian, NumberBytes, Pow256, Signed, Extended;
  }

  lemma {:induction false} ExtendedTwice(d: Detail, code: byte, a: seq<int>, b: seq<int>)
    requires d.Attributes? && IsArray(code)
    ensures Extended(Extended(d, code, a), code, b) == Extended(d, code, a + b)
  {
    UpToTwice(SKILLS, d.skills, a, b);
    UpToTwice(STATS, d.stats, a, b);
    UpToTwice(SPECIAL_SKILLS, d.specialSkills, a, b);
    hide UpTo;
  }

  lemma {:induction false} UpToTwice(n: nat, s: seq<int>, a: seq<int>, b: seq<int>)
    ensures UpTo(n, UpTo(n, s + a) + b) == UpTo(n, s + (a + b))
  {
    assert s + (a + b) == s + a + b;
  }

  /** The values of an array are read back one after the other, whatever was read before. */
  lemma {:induction false} ArrayBack(c: Condition, code: byte, list: seq<int>)
    requires c.detail.Attributes? && IsArray(code) && forall v :: v in list ==> Signed32(v)
    requires Extended(c.detail, code, []) == c.detail
    ensures Fitting(c.detail, ArrayFields(code, list))
    ensures WithFields(c, ArrayFields(code, list)) == c.(detail := Extended(c.detail, code, list))
    decreases |list|
  {
    if list == [] { return; }
    var f, fs := Num(code, 4, list[0]), ArrayFields(code, list[1..]);
    assert ArrayFields(code, list) == [f] + fs && [list[0]] + list[1..] == list && [list[0]] + [] == [list[0]];
    assert forall v :: v in list[1..] ==> v in list;
    OneValueBack(c, code, list[0]);
    ExtendedTwice(c.detail, code, [list[0]], list[1..]);
    ExtendedTwice(c.detail, code, [list[0]], []);
    hide Width, WithField, WithFields, Extended, ArrayFields, Num, SameClass, Fitting;
    var d := WithField(c, f.code, f.payload);
    ArrayBack(d, code, list[1..]);
    FittingSame(d.detail, c.detail, fs);
    FirstFits(c, f, fs);
    OneField(c, f, fs);
  }

  lemma {:induction false} FlagFieldBack(c: Condition, b: bool)
    requires c.detail.Attributes?
    ensures Fitting(c.detail, [Flag(ATTR_DISABLEDEFENSE, b)])
    ensures WithFields(c, [Flag(ATTR_DISABLEDEFENSE, b)]) == c.(detail := c.detail.(disableDefense := b))
  {
    FlagBack(b);
    hide FromLittleEndian, NumberBytes, Pow256, Signed;
  }

  /** Four lists of fields, each with its effect on the state that the one before it left. */
  lemma {:induction false} FourLists(c: Condition, c1: Condition, c2: Condition, c3: Condition, a: seq<Field>,
                                     b: seq<Field>, f: seq<Field>, e: seq<Field>)
    requires SameClass(c1.detail, c.detail) && SameClass(c2.detail, c.detail) && SameClass(c3.detail, c.detail)
    requires Fitting(c.detail, a) && WithFields(c, a) == c1 && Fitting(c1.detail, b) && WithFields(c1, b) == c2
    requires Fitting(c2.detail, f) && WithFields(c2, f) == c3 && Fitting(c3.detail, e)
    ensures Fitting(c.detail, a + (b + (f + e))) && WithFields(c, a + (b + (f + e))) == WithFields(c3, e)
  {
    FittingSame(c1.detail, c.detail, b);
    FittingSame(c2.detail, c.detail, f);
    FittingSame(c3.detail, c.detail, e);
    FittingSame(c3.detail, c2.detail, e);
    FittingSame(c2.detail, c1.detail, f);
    FittingSame(c3.detail, c1.detail, e);
    hide Width, WithFields;
    WithFieldsJoined(c2, f, e);
    WithFieldsJoined(c1, b, f + e);
    WithFieldsJoined(c, b, f + e);
    WithFieldsJoined(c, f, e);
    WithFieldsJoined(c, a, b + (f + e));
  }

  lemma {:induction false} AttributesBack(c: Condition, x: Condition)
    requires Valid(x) && x.detail.Attributes? && c.detail == Attributes([], Zeros(SKILLS), [], [], Zeros(STATS), false)
    ensures Fitting(c.detail, DetailFields(x.detail))
    ensures WithFields(c, DetailFields(x.detail)) ==
      c.(detail := x.detail.(skillsPercent := Zeros(SKILLS), statsPercent := Zeros(STATS)))
  {
    hide FromLittleEndian, NumberBytes, Pow256, Signed, WithFields, WithField, Width, Fitting, ArrayFields, Zeros;
    var d := x.detail;
    var c1 := c.(detail := c.detail.(skills := d.skills));
    var c2 := c1.(detail := c1.detail.(stats := d.stats));
    var c3 := c2.(detail := c2.detail.(disableDefense := d.disableDefense));
    assert [] + d.skills == d.skills && [] + d.stats == d.stats && [] + d.specialSkills == d.specialSkills;
    ArrayBack(c, ATTR_SKILLS, d.skills);
    ArrayBack(c1, ATTR_STATS, d.stats);
    FlagFieldBack(c2, d.disableDefense);
    ArrayBack(c3, ATTR_SPECIALSKILLS, d.specialSkills);
    FourLists(c, c1, c2, c3, ArrayFields(ATTR_SKILLS, d.skills), ArrayFields(ATTR_STATS, d.stats),
              [Flag(ATTR_DISABLEDEFENSE, d.disableDefense)], ArrayFields(ATTR_SPECIALSKILLS, d.specialSkills));
  }

  lemma {:induction false} DetailBack(c: Condition)
    requires Valid(c)
    ensures Fitting(Fresh(c).detail, DetailFields(c.detail))
    ensures WithFields(Fresh(c), DetailFields(c.detail)) == Restored(c) && Filled(Restored(c)) == Restored(c)
  {
    hide Signed32, Unsigned32, IntervalFits, Rounds, WithFields, Fitting;
    var f := Fresh(c);
    assert SameClass(f.detail, c.detail);
    match c.detail
    case Plain => assert DetailFields(c.detail) == []; NoFields(f);
    case Regeneration(_, _, _, _) => RegenerationBack(f, c);
    case Soul(_, _) => SoulBack(f, c);
    case Speed(_, _, _, _, _) => SpeedBack(f, c);
    case Damage(_, _, _) => DamageBack(f, c);
    case Light(_, _, _, _) => LightBack(f, c);
    case Outfit(_) => OutfitBack(f, c);
    case Attributes(_, _, _, _, _, _) => AttributesBack(f, c);
    case Drunk(_) => assert DetailFields(c.detail) == []; NoFields(f);
  }

  lemma {:induction false} NoFields(c: Condition)
    ensures Fitting(c.detail, []) && WithFields(c, []) == c
  {
  }

  /** A written condition is read back, and reading stops right behind its end marker. */
  lemma {:induction false} ConditionRoundTrip(c: Condition, rest: bytes)
    requires Valid(c)
    ensures var r := ReadHeader(Saved(c) + rest);
      r.Some? && ReadFields(r.value.0, r.value.1) == (true, Restored(c), rest)
  {
    hide *;
    HeaderBack(c, FieldsBytes(DetailFields(c.detail)) + [ATTR_END] + rest);
    SavedParts(c, rest);
    DetailBack(c);
    FieldsBack(Fresh(c), DetailFields(c.detail), rest);
  }

  lemma {:induction false} SavedParts(c: Condition, rest: bytes)
    requires Valid(c)
    ensures NewDetail(c.conditionType).Some?
    ensures Saved(c) + rest ==
      FieldsBytes(HeaderFields(c)) + (FieldsBytes(DetailFields(c.detail)) + [ATTR_END] + rest)
  {
    hide FieldsBytes, HeaderFields, DetailFields;
  }

  /** Whatever was stored before, reading a written stream puts the persistent conditions before it, in
    reverse order. */
  lemma {:induction false} ListRoundTrip(cs: seq<Condition>, stored: seq<Condition>)
    requires forall c :: c in cs ==> Valid(c)
    ensures LoadedList(stored, SavedList(cs)) == RestoredList(cs) + stored
    decreases |cs|
  {
    hide Valid, IsPersistent, Saved, ReadFields, Restored, ReadHeader;
    if cs == [] {
      EmptyStream();
      assert RestoredList(cs) + stored == stored;
    } else if IsPersistent(cs[0]) {
      ConditionRoundTrip(cs[0], SavedList(cs[1..]));
      ListRoundTrip(cs[1..], [Restored(cs[0])] + stored);
      assert RestoredList(cs[1..]) + ([Restored(cs[0])] + stored) == RestoredList(cs) + stored;
    } else {
      ListRoundTrip(cs[1..], stored);
      assert SavedList(cs) == SavedList(cs[1..]);
      assert RestoredList(cs) == RestoredList(cs[1..]);
    }
  }

  /** A condition that breaks off at a code its class does not have is dropped, and what follows is read. */
  lemma {:induction false} BrokenIsSkipped(c: Condition, code: byte, cs: seq<Condition>, stored: seq<Condition>)
    requires Valid(c) && code != ATTR_END && Width(Fresh(c).detail, code) == None
    requires forall x :: x in cs ==> Valid(x)
    ensures LoadedList(stored, FieldsBytes(HeaderFields(c)) + ([code] + SavedList(cs))) == RestoredList(cs) + stored
  {
    HeaderBack(c, [code] + SavedList(cs));
    ListRoundTrip(cs, stored);
    assert ([code] + SavedList(cs))[1..] == SavedList(cs);
    assert ReadFields(Fresh(c), [code] + SavedList(cs)) == (false, Fresh(c), SavedList(cs));
    hide SavedList, RestoredList, HeaderFields, FieldsBytes, ReadHeader, ReadFields, Valid;
  }

  /** A condition survives saving exactly if it has an end, and is one of a player's own (-1), of combat (0), or being muted
    (bit 16 of its type); those that come with equipment do not. */
  lemma {:induction false} SurvivesExactly(c: Condition)
    requires Valid(c)
    ensures LoadedList([], SavedList([c])) ==
      if c.ticks != -1 && (c.id in {-1, 0} || c.conditionType == 65536) then [Restored(c)] else []
  {
    ListRoundTrip([c], []);
    assert [c][1..] == [];
    assert RestoredList([c]) == if IsPersistent(c) then [Restored(c)] else [];
    hide LoadedList, SavedList, Valid, Restored;
  }

  lemma {:induction false} EmptyStream()
    ensures ReadHeader([]) == None
  {
  }

  function IntervalSum(list: seq<IntervalInfo>): int {
    if list == [] then 0 else list[0].interval + IntervalSum(list[1..])
  }

  /** Without overflow, and with intervals that are not negative, the duration is the sum of the intervals. */
  lemma {:induction false} RoundsAreSum(ticks: nat, list: seq<IntervalInfo>)
    requires forall i :: i in list ==> i.interval >= 0
    requires ticks + IntervalSum(list) < Pow256(4) / 2
    ensures Rounds(ticks, list) == ticks + IntervalSum(list) && IntervalSum(list) >= 0
    decreases |list|
  {
    if list != [] {
      SumNotNegative(list[1..]);
      SignedRoundTrip(4, ticks + list[0].interval);
      hide Pow256, Signed, Truncate;
      RoundsAreSum(ticks + list[0].interval, list[1..]);
    }
  }

  /** Which conditions come back unchanged: all but those of damage whose duration is not what their rounds add up
    to, attributes that are a percentage, and drunkenness other than the usual one. */
  lemma {:induction false} RestoredIsSame(c: Condition)
    ensures Restored(c) == c <==>
      && (c.detail.Damage? ==> c.ticks == Rounds(0, c.detail.damageList))
      && (c.detail.Attributes? ==> c.detail.skillsPercent == Zeros(SKILLS) && c.detail.statsPercent == Zeros(STATS))
      && (c.detail.Drunk? ==> c.detail.drunkenness == DRUNKENNESS)
    ensures Restored(Restored(c)) == Restored(c)
  {
    hide Rounds, Zeros;
  }

  /** Without overflow that is the sum of the intervals of the rounds. */
  lemma {:induction false} DamageIsSame(c: Condition)
    requires c.detail.Damage? && forall i :: i in c.detail.damageList ==> i.interval >= 0
    requires IntervalSum(c.detail.damageList) < Pow256(4) / 2
    ensures Restored(c) == c <==> c.ticks == IntervalSum(c.detail.damageList)
  {
    RoundsAreSum(0, c.detail.damageList);
    RestoredIsSame(c);
    hide Restored, Rounds, IntervalSum;
  }

  /** The persistent conditions of a list, last one first. */
  function PersistentReversed(cs: seq<Condition>): seq<Condition> {
    if cs == [] then [] else PersistentReversed(cs[1..]) + (if IsPersistent(cs[0]) then [cs[0]] else [])
  }

  lemma {:induction false} SameLength(cs: seq<Condition>)
    ensures |RestoredList(cs)| == |PersistentReversed(cs)|
  {
    if cs != [] {
      SameLength(cs[1..]);
    }
  }

  /** A player's persistent conditions come back unchanged, in reverse order, if and only if each of them does. */
  lemma {:induction false} ListIsSame(cs: seq<Condition>)
    requires forall c :: c in cs ==> Valid(c)
    ensures LoadedList([], SavedList(cs)) == PersistentReversed(cs) <==>
      forall c :: c in cs && IsPersistent(c) ==> Restored(c) == c
  {
    ListRoundTrip(cs, []);
    assert RestoredList(cs) + [] == RestoredList(cs);
    RestoredListIsSame(cs);
  }

  lemma {:induction false} RestoredListIsSame(cs: seq<Condition>)
    ensures RestoredList(cs) == PersistentReversed(cs) <==> forall c :: c in cs && IsPersistent(c) ==> Restored(c) == c
    decreases |cs|
  {
    hide IsPersistent, Restored;
    if cs != [] {
      RestoredListIsSame(cs[1..]);
      SameLength(cs[1..]);
      assert cs == [cs[0]] + cs[1..];
      if IsPersistent(cs[0]) {
        LastOnes(RestoredList(cs[1..]), Restored(cs[0]), PersistentReversed(cs[1..]), cs[0]);
      } else {
        assert RestoredList(cs) == RestoredList(cs[1..]) && PersistentReversed(cs) == PersistentReversed(cs[1..]);
      }
    }
  }

  lemma {:induction false} LastOnes(a: seq<Condition>, x: Condition, b: seq<Condition>, y: Condition)
    requires |a| == |b|
    ensures a + [x] == b + [y] <==> a == b && x == y
  {
    if a + [x] == b + [y] {
      assert a == (a + [x])[..|a|] == (b + [y])[..|b|] == b;
      assert x == (a + [x])[|a|];
    }
  }

  lemma {:induction false} SumNotNegative(list: seq<IntervalInfo>)
    requires forall i :: i in list ==> i.interval >= 0
    ensures IntervalSum(list) >= 0
  {
    if list != [] { SumNotNegative(list[1..]); }
  }

  // ---- the stream operations --------------------------------------------------------------------

  lemma {:induction false} OneMoreField(fs: seq<Field>, f: Field)
    ensures FieldsBytes(fs + [f]) == FieldsBytes(fs) + FieldBytes(f)
  {
    hide FieldBytes;
    if fs == [] {
      assert [] + [f] == [f] && [f][1..] == [];
    } else {
      assert (fs + [f])[1..] == fs[1..] + [f];
      OneMoreField(fs[1..], f);
    }
  }

  /** The stream holds `start` followed by the attributes `done`. */
  ghost predicate Holds(stream: PropWriteStream, start: bytes, done: seq<Field>)
    reads stream
  {
    stream.buffer == start + FieldsBytes(done)
  }

  /** One attribute: the code, then a number of `n` bytes. */
  method Put(stream: PropWriteStream, code: byte, n: nat, v: int, ghost start: bytes, ghost before: seq<Field>)
    returns (ghost done: seq<Field>)
    requires Holds(stream, start, before)
    modifies stream
    ensures done == before + [Num(code, n, v)] && Holds(stream, start, done)
  {
    hide NumberBytes, FieldsBytes;
    stream.Write(1, code);
    OneByte(code);
    stream.Write(n, v);
    done := before + [Num(code, n, v)];
    OneMoreField(before, Num(code, n, v));
    Regrouped(start, FieldsBytes(before), [code], NumberBytes(n, v));
  }

  lemma {:induction false} Regrouped(a: bytes, b: bytes, c: bytes, d: bytes)
    ensures a + b + c + d == a + (b + (c + d))
  {
  }

  method PutInterval(stream: PropWriteStream, i: IntervalInfo, ghost start: bytes, ghost before: seq<Field>)
    returns (ghost done: seq<Field>)
    requires Holds(stream, start, before)
    modifies stream
    ensures done == before + [IntervalField(i)] && Holds(stream, start, done)
  {
    hide NumberBytes, FieldsBytes;
    stream.Write(1, ATTR_INTERVALDATA);
    OneByte(ATTR_INTERVALDATA);
    stream.Write(4, i.timeLeft);
    stream.Write(4, i.value);
    stream.Write(4, i.interval);
    done := before + [IntervalField(i)];
    OneMoreField(before, IntervalField(i));
    Associative(start + FieldsBytes(before) + [ATTR_INTERVALDATA], NumberBytes(4, i.timeLeft), NumberBytes(4, i.value),
      NumberBytes(4, i.interval));
    Regrouped(start, FieldsBytes(before), [ATTR_INTERVALDATA], IntervalField(i).payload);
  }

  /** `Condition::serialize` */
  method SerializeHeader(c: Condition, stream: PropWriteStream, ghost start: bytes) returns (ghost done: seq<Field>)
    requires stream.buffer == start
    modifies stream
    ensures done == HeaderFields(c) && Holds(stream, start, done)
  {
    assert Holds(stream, start, []);
    hide Holds, Num;
    done := Put(stream, ATTR_TYPE, 4, c.conditionType, start, []);
    done := Put(stream, ATTR_ID, 4, c.id, start, done);
    done := Put(stream, ATTR_TICKS, 4, c.ticks, start, done);
    done := Put(stream, ATTR_ISBUFF, 1, if c.isBuff then 1 else 0, start, done);
    done := Put(stream, ATTR_SUBID, 4, c.subId, start, done);
    done := Put(stream, ATTR_ISAGGRESSIVE, 1, if c.aggressive then 1 else 0, start, done);
  }

  lemma {:induction false} OneMoreInterval(list: seq<IntervalInfo>, i: IntervalInfo)
    ensures IntervalFields(list + [i]) == IntervalFields(list) + [IntervalField(i)]
  {
    hide IntervalField;
    if list == [] {
      assert [] + [i] == [i] && [i][1..] == [];
    } else {
      assert (list + [i])[1..] == list[1..] + [i];
      OneMoreInterval(list[1..], i);
    }
  }

  /** `ConditionDamage::serialize` behind the header. */
  method SerializeDamage(d: Detail, stream: PropWriteStream, ghost start: bytes, ghost before: seq<Field>)
    returns (ghost done: seq<Field>)
    requires d.Damage? && Holds(stream, start, before)
    modifies stream
    ensures done == before + DetailFields(d) && Holds(stream, start, done)
  {
    hide Holds, Num, IntervalField;
    done := Put(stream, ATTR_DELAYED, 1, if d.delayed then 1 else 0, start, before);
    done := Put(stream, ATTR_PERIODDAMAGE, 4, d.periodDamage, start, done);
    ghost var fixed := done;
    for i := 0 to |d.damageList|
      invariant done == fixed + IntervalFields(d.damageList[..i]) && Holds(stream, start, done)
    {
      OneMoreInterval(d.damageList[..i], d.damageList[i]);
      assert d.damageList[..i] + [d.damageList[i]] == d.damageList[..i + 1];
      done := PutInterval(stream, d.damageList[i], start, done);
    }
    assert d.damageList[..|d.damageList|] == d.damageList;
  }

  lemma {:induction false} OneMoreValue(code: byte, list: seq<int>, v: int)
    ensures ArrayFields(code, list + [v]) == ArrayFields(code, list) + [Num(code, 4, v)]
  {
    hide Num;
    if list == [] {
      assert [] + [v] == [v] && [v][1..] == [];
    } else {
      assert (list + [v])[1..] == list[1..] + [v];
      OneMoreValue(code, list[1..], v);
    }
  }

  /** One of the arrays, value by value. */
  method PutArray(stream: PropWriteStream, code: byte, list: seq<int>, ghost start: bytes, ghost before: seq<Field>)
    returns (ghost done: seq<Field>)
    requires Holds(stream, start, before)
    modifies stream
    ensures done == before + ArrayFields(code, list) && Holds(stream, start, done)
  {
    hide Holds, Num;
    done := before;
    for i := 0 to |list|
      invariant done == before + ArrayFields(code, list[..i]) && Holds(stream, start, done)
    {
      OneMoreValue(code, list[..i], list[i]);
      assert list[..i] + [list[i]] == list[..i + 1];
      done := Put(stream, code, 4, list[i], start, done);
    }
    assert list[..|list|] == list;
  }

  /** `ConditionAttributes::serialize` behind the header. */
  method SerializeAttributes(d: Detail, stream: PropWriteStream, ghost start: bytes, ghost before: seq<Field>)
    returns (ghost done: seq<Field>)
    requires d.Attributes? && Holds(stream, start, before)
    modifies stream
    ensures done == before + DetailFields(d) && Holds(stream, start, done)
  {
    hide Holds, Num, ArrayFields;
    done := PutArray(stream, ATTR_SKILLS, d.skills, start, before);
    done := PutArray(stream, ATTR_STATS, d.stats, start, done);
    done := Put(stream, ATTR_DISABLEDEFENSE, 1, if d.disableDefense then 1 else 0, start, done);
    done := PutArray(stream, ATTR_SPECIALSKILLS, d.specialSkills, start, done);
  }

  /** The part of `serialize` that a class adds to the header. */
  method SerializeDetail(d: Detail, stream: PropWriteStream, ghost start: bytes, ghost before: seq<Field>)
    returns (ghost done: seq<Field>)
    requires Holds(stream, start, before)
    modifies stream
    ensures done == before + DetailFields(d) && Holds(stream, start, done)
  {
    hide Holds, Num, IntervalField, IntervalFields, ArrayFields;
    done := before;
    match d
    case Plain =>
    case Regeneration(ht, hg, mt, mg) =>
      done := Put(stream, ATTR_HEALTHTICKS, 4, ht, start, done);
      done := Put(stream, ATTR_HEALTHGAIN, 4, hg, start, done);
      done := Put(stream, ATTR_MANATICKS, 4, mt, start, done);
      done := Put(stream, ATTR_MANAGAIN, 4, mg, start, done);
    case Soul(gain, ticks) =>
      done := Put(stream, ATTR_SOULGAIN, 4, gain, start, done);
      done := Put(stream, ATTR_SOULTICKS, 4, ticks, start, done);
    case Speed(delta, mina, minb, maxa, maxb) =>
      done := Put(stream, ATTR_SPEEDDELTA, 4, delta, start, done);
      done := Put(stream, ATTR_FORMULA_MINA, 4, mina, start, done);
      done := Put(stream, ATTR_FORMULA_MINB, 4, minb, start, done);
      done := Put(stream, ATTR_FORMULA_MAXA, 4, maxa, start, done);
      done := Put(stream, ATTR_FORMULA_MAXB, 4, maxb, start, done);
    case Damage(_, _, _) =>
      done := SerializeDamage(d, stream, start, done);
    case Light(color, level, ticks, interval) =>
      done := Put(stream, ATTR_LIGHTCOLOR, 4, color, start, done);
      done := Put(stream, ATTR_LIGHTLEVEL, 4, level, start, done);
      done := Put(stream, ATTR_LIGHTTICKS, 4, ticks, start, done);
      done := Put(stream, ATTR_LIGHTINTERVAL, 4, interval, start, done);
    case Outfit(look) =>
      done := Put(stream, ATTR_OUTFIT, 10, look, start, done);
    case Attributes(_, _, _, _, _, _) =>
      done := SerializeAttributes(d, stream, start, done);
    case Drunk(_) =>
  }

  lemma {:induction false} FieldsJoined(fs: seq<Field>, gs: seq<Field>)
    ensures FieldsBytes(fs + gs) == FieldsBytes(fs) + FieldsBytes(gs)
  {
    hide FieldBytes;
    if fs == [] {
      assert fs + gs == gs;
    } else {
      assert (fs + gs)[1..] == fs[1..] + gs;
      FieldsJoined(fs[1..], gs);
    }
  }

  /** A condition with its end marker, as `savePlayer` writes it. */
  method SaveCondition(c: Condition, stream: PropWriteStream)
    modifies stream
    ensures stream.buffer == old(stream.buffer) + Saved(c)
  {
    hide FieldsBytes, HeaderFields, DetailFields;
    ghost var start := stream.buffer;
    ghost var done := SerializeHeader(c, stream, start);
    done := SerializeDetail(c.detail, stream, start, done);
    FieldsJoined(HeaderFields(c), DetailFields(c.detail));
    stream.Write(1, ATTR_END);
    OneByte(ATTR_END);
  }

  /** The loop of `savePlayer` over the conditions of a player. */
  method SaveConditions(conditions: seq<Condition>, stream: PropWriteStream)
    requires stream.buffer == []
    modifies stream
    ensures stream.buffer == SavedList(conditions)
  {
    hide Saved, IsPersistent;
    for i := 0 to |conditions|
      invariant stream.buffer + SavedList(conditions[i..]) == SavedList(conditions)
    {
      assert conditions[i..][1..] == conditions[i + 1..];
      if IsPersistent(conditions[i]) {
        ghost var before := stream.buffer;
        SaveCondition(conditions[i], stream);
        assert before + (Saved(conditions[i]) + SavedList(conditions[i + 1..])) ==
          stream.buffer + SavedList(conditions[i + 1..]);
      } else {
        assert SavedList(conditions[i..]) == SavedList(conditions[i + 1..]);
      }
    }
    assert stream.buffer + [] == stream.buffer;
  }

  /** `Condition::unserialize` */
  method Unserialize(c0: Condition, stream: PropStream) returns (ok: bool, c: Condition)
    requires stream.Valid()
    modifies stream
    ensures stream.Valid() && stream.p >= old(stream.p)
    ensures ReadFields(c0, old(stream.Rest())) == (ok, c, stream.Rest())
  {
    hide WithField, Width, ReadNumber;
    c := c0;
    while true
      invariant stream.Valid() && stream.p >= old(stream.p)
      invariant ReadFields(c0, old(stream.Rest())) == ReadFields(c, stream.Rest())
      decreases |stream.data| - stream.p
    {
      ghost var b := stream.Rest();
      if stream.p == |stream.data| { return true, Filled(c); }
      var code := stream.data[stream.p];
      stream.p := stream.p + 1;
      assert stream.Rest() == b[1..];
      if code == ATTR_END { return true, Filled(c); }
      if Width(c.detail, code).None? { return false, c; }
      var w := Width(c.detail, code).value;
      if |stream.data| - stream.p < w { return false, c; }
      var payload := stream.data[stream.p..stream.p + w];
      stream.p := stream.p + w;
      assert payload == b[1..w + 1] && stream.Rest() == b[w + 1..];
      c := WithField(c, code, payload);
    }
  }

  /** One attribute of the header. */
  method ReadAttribute(code: byte, n: nat, stream: PropStream) returns (ok: bool, v: nat)
    requires stream.Valid()
    modifies stream
    ensures stream.Valid() && stream.p >= old(stream.p)
    ensures ReadTagged(code, n, old(stream.Rest())) == if ok then Some((v, stream.Rest())) else None
  {
    hide ReadNumber;
    ghost var b := stream.Rest();
    var attr;
    ok, attr := stream.Read(1);
    if b != [] { FirstByte(b); }
    if !ok || attr != code { return false, 0; }
    ok, v := stream.Read(n);
  }

  /** `Condition::createCondition(propStream)` */
  method CreateCondition(stream: PropStream) returns (created: Option<Condition>)
    requires stream.Valid()
    modifies stream
    ensures stream.Valid() && stream.p >= old(stream.p)
    ensures ReadHeader(old(stream.Rest())) == if created.Some? then Some((created.value, stream.Rest())) else None
  {
    hide ReadTagged, NewCondition;
    created := None;
    var ok, conditionType, id, ticks, buff, subId, aggressive;
    ok, conditionType := ReadAttribute(ATTR_TYPE, 4, stream);
    if !ok { return; }
    ok, id := ReadAttribute(ATTR_ID, 4, stream);
    if !ok { return; }
    ok, ticks := ReadAttribute(ATTR_TICKS, 4, stream);
    if !ok { return; }
    ok, buff := ReadAttribute(ATTR_ISBUFF, 1, stream);
    if !ok { return; }
    ok, subId := ReadAttribute(ATTR_SUBID, 4, stream);
    if !ok { return; }
    ok, aggressive := ReadAttribute(ATTR_ISAGGRESSIVE, 1, stream);
    if !ok { return; }
    created := NewCondition(conditionType, id, ticks, buff, subId, aggressive);
  }

  /** The loop of `loadPlayer` over the condition stream. */
  method LoadConditions(data: bytes) returns (stored: seq<Condition>)
    ensures stored == LoadedList([], data)
  {
    hide ReadHeader, ReadFields;
    var stream := new PropStream(data);
    stored := [];
    var created := CreateCondition(stream);
    ghost var at := data;
    while created.Some?
      invariant fresh(stream) && stream.Valid()
      invariant ReadHeader(at) == if created.Some? then Some((created.value, stream.Rest())) else None
      invariant LoadedList([], data) == LoadedList(stored, at)
      decreases |at|
    {
      var ok, c := Unserialize(created.value, stream);
      if ok { stored := [c] + stored; }
      at := stream.Rest();
      created := CreateCondition(stream);
    }
  }
}
