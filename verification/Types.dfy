/** The Vyper types of the generator and how they are read off a message. */
module Types {

  const MAX_FUNCTION_INPUT := 5
  const MAX_FUNCTION_OUTPUT := 5
  const MAX_STORAGE_VARIABLES := 5
  const MAX_FUNCTIONS := 5
  const MAX_LIST_SIZE := 100
  const MAX_BYTESTRING_SIZE := 1000

  datatype Option<+T> = None | Some(value: T)

  /** NoType stands for the missing base type of "any dynamic array", which only lookups use. */
  datatype VType =
    | NoType
    | Bool
    | Decimal
    | Address
    | Int(n: nat, signed: bool)
    | BytesM(m: nat)
    | Bytes(m: nat)
    | Str(m: nat)
    | FixedList(size: nat, base: VType)
    | DynArray(size: nat, base: VType)

  /** A dynamic array is a kind of fixed list in the source's class hierarchy. */
  predicate IsList(t: VType) {
    t.FixedList? || t.DynArray?
  }

  /** Types whose variables may be used at another size than their own. */
  predicate Sized(t: VType) {
    t.Bytes? || t.Str? || t.DynArray?
  }

  function Capacity(t: VType): nat
    requires Sized(t)
  {
    if t.DynArray? then t.size else t.m
  }

  /** The class name that variable ids are counted under. */
  function TypeName(t: VType): string {
    match t
    case NoType => "NONE"
    case Bool => "BOOL"
    case Decimal => "DECIMAL"
    case Address => "ADDRESS"
    case Int(_, _) => "INT"
    case BytesM(_) => "BYTESM"
    case Bytes(_) => "BYTES"
    case Str(_) => "STRING"
    case FixedList(_, base) => "FL_" + TypeName(base)
    case DynArray(_, base) => "DA_" + TypeName(base)
  }

  predicate ValidScalar(t: VType) {
    t.Bool? || t.Decimal? || t.Address? || (t.Int? && 8 <= t.n <= 256 && t.n % 8 == 0) ||
    (t.BytesM? && 1 <= t.m <= 32)
  }

  predicate ValidBytestring(t: VType) {
    (t.Bytes? || t.Str?) && 1 <= t.m <= MAX_BYTESTRING_SIZE
  }

  predicate ValidFixedList(t: VType) {
    t.FixedList? && 1 <= t.size <= MAX_LIST_SIZE && ValidScalar(t.base)
  }

  predicate ValidType(t: VType) {
    || ValidScalar(t)
    || ValidBytestring(t)
    || ValidFixedList(t)
    || (t.DynArray? && 1 <= t.size <= MAX_LIST_SIZE &&
        (ValidScalar(t.base) || ValidBytestring(t.base) || ValidFixedList(t.base)))
  }

  /** A type as the message schema spells it: raw, unchecked numbers. */
  datatype TypeMessage =
    | BoolMessage
    | DecimalMessage
    | AddressMessage
    | BytesMMessage(m: nat)
    | StringMessage(maxLen: nat)
    | ByteArrayMessage(maxLen: nat)
    | ListMessage(n: nat, item: TypeMessage)
    | DynMessage(n: nat, item: TypeMessage)
    | IntMessage(n: nat, sign: bool)

  /** The schema nests a list only in a dynamic array, and gives fixed lists scalar items. */
  predicate InSchema(msg: TypeMessage) {
    match msg
    case ListMessage(_, item) => ScalarMessage(item)
    case DynMessage(_, item) => !item.DynMessage? && (item.ListMessage? ==> ScalarMessage(item.item))
    case _ => true
  }

  type SchemaType = m: TypeMessage | InSchema(m) witness BoolMessage

  predicate ScalarMessage(msg: TypeMessage) {
    msg.BoolMessage? || msg.DecimalMessage? || msg.AddressMessage? || msg.BytesMMessage? || msg.IntMessage?
  }

  /** The least multiple of eight that is at least num. */
  function NearestMultipleOf8(num: nat): (r: nat)
    ensures r % 8 == 0 && num <= r < num + 8
  {
    8 * ((num + 7) / 8)
  }

  function ClampedLength(raw: nat, max: nat): nat {
    var len := if raw == 0 then 1 else raw;
    if len < max then len else max
  }

  function IntType(n: nat, sign: bool): (t: VType)
    ensures ValidScalar(t) && t.Int? && t.signed == sign && n % 256 + 1 <= t.n < n % 256 + 9
  {
    Int(NearestMultipleOf8(n % 256 + 1), sign)
  }

  function BytesMType(m: nat): (t: VType)
    ensures ValidScalar(t)
  {
    BytesM(m % 32 + 1)
  }

  function ExtractType(msg: TypeMessage): (t: VType)
    ensures InSchema(msg) ==> ValidType(t)
    ensures ScalarMessage(msg) ==> ValidScalar(t)
  {
    match msg
    case BoolMessage => Bool
    case DecimalMessage => Decimal
    case AddressMessage => Address
    case BytesMMessage(m) => BytesMType(m)
    case StringMessage(len) => Str(ClampedLength(len, MAX_BYTESTRING_SIZE))
    case ByteArrayMessage(len) => Bytes(ClampedLength(len, MAX_BYTESTRING_SIZE))
    case ListMessage(n, item) => FixedList(ClampedLength(n, MAX_LIST_SIZE), ExtractType(item))
    case DynMessage(n, item) => DynArray(ClampedLength(n, MAX_LIST_SIZE), ExtractType(item))
    case IntMessage(n, sign) => IntType(n, sign)
  }

  // ----- what a type message spells

  /** Numbers wrap around at 256 bits, and sizes are rounded up to whole bytes. */
  predicate SpellsInt(n: nat, sign: bool, t: VType) {
    t.Int? && t.signed == sign && t.n % 8 == 0 && t.n - 8 < n % 256 + 1 <= t.n
  }

  predicate SpellsBytesM(m: nat, t: VType) {
    t.BytesM? && 1 <= t.m <= 32 && (m + 1 - t.m) % 32 == 0
  }

  /** A length of zero counts as one, and one beyond the largest as the largest. */
  predicate SpellsLength(raw: nat, max: nat, length: nat) {
    length == if raw == 0 then 1 else if raw <= max then raw else max
  }

  predicate Spells(msg: TypeMessage, t: VType) {
    match t
    case NoType => false
    case Bool => msg.BoolMessage?
    case Decimal => msg.DecimalMessage?
    case Address => msg.AddressMessage?
    case Int(_, _) => msg.IntMessage? && SpellsInt(msg.n, msg.sign, t)
    case BytesM(_) => msg.BytesMMessage? && SpellsBytesM(msg.m, t)
    case Bytes(m) => msg.ByteArrayMessage? && SpellsLength(msg.maxLen, MAX_BYTESTRING_SIZE, m)
    case Str(m) => msg.StringMessage? && SpellsLength(msg.maxLen, MAX_BYTESTRING_SIZE, m)
    case FixedList(size, base) => msg.ListMessage? && SpellsLength(msg.n, MAX_LIST_SIZE, size) && Spells(msg.item, base)
    case DynArray(size, base) => msg.DynMessage? && SpellsLength(msg.n, MAX_LIST_SIZE, size) && Spells(msg.item, base)
  }

  /** A message spells exactly one type, the extracted one. */
  lemma {:induction false} ExtractedIff(msg: TypeMessage, t: VType)
    ensures Spells(msg, t) <==> t == ExtractType(msg)
    decreases msg
  {
    match msg {
      case IntMessage(n, sign) => SpelledInt(n, sign, t);
      case BytesMMessage(m) => SpelledBytesM(m, t);
      case ListMessage(_, item) =>
        if t.FixedList? { ExtractedIff(item, t.base); }
      case DynMessage(_, item) =>
        if t.DynArray? { ExtractedIff(item, t.base); }
      case _ =>
    }
  }

  lemma SpelledInt(n: nat, sign: bool, t: VType)
    ensures SpellsInt(n, sign, t) <==> t == IntType(n, sign)
  {
  }

  lemma SpelledBytesM(m: nat, t: VType)
    ensures SpellsBytesM(m, t) <==> t == BytesMType(m)
  {
  }

  /** Variables are counted together if and only if their types have the same class, and lists their items' too. */
  predicate SameClass(s: VType, t: VType) {
    match s
    case NoType => t.NoType?
    case Bool => t.Bool?
    case Decimal => t.Decimal?
    case Address => t.Address?
    case Int(_, _) => t.Int?
    case BytesM(_) => t.BytesM?
    case Bytes(_) => t.Bytes?
    case Str(_) => t.Str?
    case FixedList(_, base) => t.FixedList? && SameClass(base, t.base)
    case DynArray(_, base) => t.DynArray? && SameClass(base, t.base)
  }

  lemma {:induction false} CountedTogether(s: VType, t: VType)
    ensures TypeName(s) == TypeName(t) <==> SameClass(s, t)
    decreases s
  {
    if (s.FixedList? && t.FixedList?) || (s.DynArray? && t.DynArray?) {
      CountedTogether(s.base, t.base);
      assert TypeName(s)[3..] == TypeName(s.base) && TypeName(t)[3..] == TypeName(t.base);
    } else if IsList(s) != IsList(t) {
      FirstLetters(s);
      FirstLetters(t);
    } else if IsList(s) {
      assert TypeName(s)[0] != TypeName(t)[0];
    }
  }

  lemma FirstLetters(t: VType)
    ensures |TypeName(t)| >= 3 && (IsList(t) <==> TypeName(t)[2] == '_')
  {
  }
}
