// JSON values as DynamoDB attributes and back.

module Decimal {
  import opened Wrappers

  const I64_LIMIT := 0x8000_0000_0000_0000

  predicate IsI64(n: int) { -I64_LIMIT <= n < I64_LIMIT }

  function Digit(d: nat): char
    requires d < 10
  {
    '0' + d as char
  }

  function Digits(n: nat): string {
    if n < 10 then [Digit(n)] else Digits(n / 10) + [Digit(n % 10)]
  }

  // `i.to_string()`
  function Print(n: int): string {
    if n < 0 then "-" + Digits(-n) else Digits(n)
  }

  predicate IsDigit(c: char) { '0' <= c <= '9' }

  // The value of a nonempty run of digits.
  function ParseDigits(s: string): Option<nat> {
    if s == "" || !IsDigit(s[|s| - 1]) then None
    else
      var d := (s[|s| - 1] - '0') as nat;
      if |s| == 1 then Some(d)
      else
        match ParseDigits(s[..|s| - 1])
        case Some(high) => Some(10 * high + d)
        case None => None
  }

  // `s.parse::<i64>()`: an optional sign, digits, and no overflow.
  function Parse(s: string): Option<int> {
    if s == "" then None
    else
      var unsigned := ParseDigits(if s[0] == '-' || s[0] == '+' then s[1..] else s);
      match unsigned
      case None => None
      case Some(n) =>
        var magnitude: int := n;
        var value := if s[0] == '-' then -magnitude else magnitude;
        if IsI64(value) then Some(value) else None
  }

  lemma {:induction false} DigitsParse(n: nat)
    ensures ParseDigits(Digits(n)) == Some(n)
    ensures |Digits(n)| > 0 && IsDigit(Digits(n)[0])
  {
    if n >= 10 {
      DigitsParse(n / 10);
      var s := Digits(n);
      assert s[..|s| - 1] == Digits(n / 10);
    }
  }

  // No superfluous sign or zero.
  ghost predicate Canonical(s: string) {
    var digits := if s != "" && s[0] == '-' then s[1..] else s;
    && digits != "" && (forall i | 0 <= i < |digits| :: '0' <= digits[i] <= '9')
    && (digits[0] == '0' ==> s == "0")
  }

  lemma {:induction false} DigitsAreCanonical(n: nat)
    ensures forall i | 0 <= i < |Digits(n)| :: '0' <= Digits(n)[i] <= '9'
    ensures Digits(n) != "" && (Digits(n)[0] == '0' ==> n == 0)
    ensures n == 0 ==> Digits(n) == "0"
  {
    if n >= 10 {
      DigitsAreCanonical(n / 10);
    }
  }

  lemma PrintIsCanonical(n: int)
    ensures Canonical(Print(n)) && (n < 0 <==> Print(n)[0] == '-')
  {
    hide Digits;
    if n < 0 {
      DigitsAreCanonical(-n);
      var s := Print(n);
      assert s == "-" + Digits(-n) && s[1..] == Digits(-n);
    } else {
      DigitsAreCanonical(n);
    }
  }

  // Only numbers in range are read, and only an optional sign and digits.
  lemma {:induction false} DigitsOnly(s: string)
    ensures ParseDigits(s).Some? <==> s != "" && forall i | 0 <= i < |s| :: '0' <= s[i] <= '9'
  {
    if |s| > 1 {
      DigitsOnly(s[..|s| - 1]);
    }
  }

  // A further digit counts one place more.
  lemma DigitsCount(s: string, c: char)
    requires ParseDigits(s).Some? && IsDigit(c)
    ensures ParseDigits(s + [c]) == Some(10 * ParseDigits(s).value + (c - '0') as nat)
    ensures ParseDigits([c]) == Some((c - '0') as nat)
  {
    assert (s + [c])[..|s|] == s;
  }

  // A plus changes nothing and a minus the sign; what does not fit is not read.
  lemma SignsAre(s: string)
    requires ParseDigits(s).Some?
    ensures
      var n: int := ParseDigits(s).value;
      && Parse(s) == Parse("+" + s) == (if n < 0x8000_0000_0000_0000 then Some(n) else None)
      && Parse("-" + s) == (if n <= 0x8000_0000_0000_0000 then Some(-n) else None)
  {
    DigitsOnly(s);
    assert ("+" + s)[1..] == s && ("-" + s)[1..] == s;
    hide ParseDigits;
  }

  lemma ParsedIsInRange(s: string)
    requires Parse(s).Some?
    ensures -0x8000_0000_0000_0000 <= Parse(s).value < 0x8000_0000_0000_0000
    ensures
      var digits := if s[0] in {'-', '+'} then s[1..] else s;
      digits != "" && forall i | 0 <= i < |digits| :: '0' <= digits[i] <= '9'
  {
    DigitsOnly(if s[0] == '-' || s[0] == '+' then s[1..] else s);
  }

  lemma PrintParses(n: int)
    requires IsI64(n)
    ensures Parse(Print(n)) == Some(n)
  {
    hide Digits, ParseDigits;
    if n < 0 {
      DigitsParse(-n);
      var s := Print(n);
      assert s == "-" + Digits(-n) && s[0] == '-' && s[1..] == Digits(-n);
    } else {
      DigitsParse(n);
    }
  }
}

module AttributeCodec {
  import opened Wrappers
  import opened Json
  import Decimal

  datatype Attribute =
    | S(s: string)
    | N(n: string)
    | BoolAttr(b: bool)
    | NullAttr(isNull: bool)
    | L(list: seq<Attribute>)
    | M(members: map<string, Attribute>)
    | Ss(strings: seq<string>)
    | Ns(numbers: seq<string>)
    | Binary

  // How numbers outside the 64-bit integers are printed and read as floats; nothing is assumed
  // of them.
  datatype Floats = Floats(write: int -> string, read: string -> Option<int>)

  // -- Specifications ------------------------------------------------------------------------

  function Encode(value: Json, floats: Floats): Attribute {
    match value
    case String(s) => S(s)
    case Number(n) => N(if Decimal.IsI64(n) then Decimal.Print(n) else floats.write(n))
    case Bool(b) => BoolAttr(b)
    case Null => NullAttr(true)
    case Array(items) => L(seq(|items|, i requires 0 <= i < |items| => Encode(items[i], floats)))
    case Object(fields) => M(map k | k in fields :: Encode(fields[k], floats))
  }

  function DecodeNumber(n: string, floats: Floats): Json {
    match Decimal.Parse(n)
    case Some(i) => Number(i)
    case None =>
      match floats.read(n)
      case Some(f) => Number(f)
      case None => String(n)
  }

  function TextArray(texts: seq<string>): Json {
    Array(seq(|texts|, i requires 0 <= i < |texts| => String(texts[i])))
  }

  function Decode(attr: Attribute, floats: Floats): Json {
    match attr
    case S(s) => String(s)
    case N(n) => DecodeNumber(n, floats)
    case BoolAttr(b) => Bool(b)
    case NullAttr(_) => Null
    case L(list) => Array(seq(|list|, i requires 0 <= i < |list| => Decode(list[i], floats)))
    case M(members) => Object(map k | k in members :: Decode(members[k], floats))
    case Ss(texts) => TextArray(texts)
    case Ns(texts) => TextArray(texts)
    case Binary => Null
  }

  // Every number in the value is a 64-bit signed integer.
  ghost predicate NumbersFit(value: Json) {
    match value
    case Number(n) => Decimal.IsI64(n)
    case Array(items) => forall i | 0 <= i < |items| :: NumbersFit(items[i])
    case Object(fields) => forall k | k in fields :: NumbersFit(fields[k])
    case _ => true
  }

  // Whatever floats do, decoding an encoded value gives it back.
  lemma {:induction false} DecodeEncode(value: Json, floats: Floats)
    requires NumbersFit(value)
    ensures Decode(Encode(value, floats), floats) == value
  {
    match value
    case Number(n) =>
      Decimal.PrintParses(n);
    case Array(items) =>
      forall i | 0 <= i < |items| ensures Decode(Encode(items[i], floats), floats) == items[i] {
        DecodeEncode(items[i], floats);
      }
      assert Decode(Encode(value, floats), floats).items == items;
    case Object(fields) =>
      forall k | k in fields ensures Decode(Encode(fields[k], floats), floats) == fields[k] {
        DecodeEncode(fields[k], floats);
      }
      EqualByLookup(Decode(Encode(value, floats), floats).fields, fields);
    case _ =>
  }

  // So no two such values share an encoding.
  lemma EncodeIsInjective(x: Json, y: Json, floats: Floats)
    requires NumbersFit(x) && NumbersFit(y)
    requires Encode(x, floats) == Encode(y, floats)
    ensures x == y
  {
    DecodeEncode(x, floats);
    DecodeEncode(y, floats);
  }

  // -- The conversions -------------------------------------------------------------------------

  // `json_value_to_attribute_value`
  method JsonToAttribute(value: Json, floats: Floats) returns (attr: Attribute)
    ensures attr == Encode(value, floats)
    decreases value, 1
  {
    match value {
      case String(s) => attr := S(s);
      case Number(n) => attr := N(if Decimal.IsI64(n) then Decimal.Print(n) else floats.write(n));
      case Bool(b) => attr := BoolAttr(b);
      case Null => attr := NullAttr(true);
      case Array(items) =>
        var list: seq<Attribute> := [];
        for i := 0 to |items|
          invariant list == seq(i, j requires 0 <= j < i => Encode(items[j], floats))
        {
          var item := JsonToAttribute(items[i], floats);
          list := list + [item];
        }
        attr := L(list);
      case Object(fields) =>
        var members := EncodeMembers(value, floats);
        attr := M(members);
    }
  }

  // The loop over the members of an object, in any order.
  method EncodeMembers(value: Json, floats: Floats) returns (members: map<string, Attribute>)
    requires value.Object?
    ensures members == map k | k in value.fields :: Encode(value.fields[k], floats)
    decreases value, 0
  {
    members := map[];
    var todo := value.fields.Keys;
    while todo != {}
      invariant todo <= value.fields.Keys
      invariant members == map k | k in value.fields.Keys - todo :: Encode(value.fields[k], floats)
      decreases |todo|
    {
      var key :| key in todo;
      todo := todo - {key};
      var attr := JsonToAttribute(value.fields[key], floats);
      members := members[key := attr];
    }
  }

  // `attribute_value_to_json`
  method AttributeToJson(attr: Attribute, floats: Floats) returns (value: Json)
    ensures value == Decode(attr, floats)
    decreases attr, 1
  {
    match attr {
      case S(s) => value := String(s);
      case N(n) => value := DecodeNumber(n, floats);
      case BoolAttr(b) => value := Bool(b);
      case NullAttr(_) => value := Null;
      case L(list) =>
        var items: seq<Json> := [];
        for i := 0 to |list|
          invariant items == seq(i, j requires 0 <= j < i => Decode(list[j], floats))
        {
          var item := AttributeToJson(list[i], floats);
          items := items + [item];
        }
        value := Array(items);
      case M(_) =>
        var fields := DecodeMembers(attr, floats);
        value := Object(fields);
      case Ss(texts) => value := TextArray(texts);
      case Ns(texts) => value := TextArray(texts);
      case Binary => value := Null;
    }
  }

  method DecodeMembers(attr: Attribute, floats: Floats) returns (fields: map<string, Json>)
    requires attr.M?
    ensures fields == map k | k in attr.members :: Decode(attr.members[k], floats)
    decreases attr, 0
  {
    fields := map[];
    var todo := attr.members.Keys;
    while todo != {}
      invariant todo <= attr.members.Keys
      invariant fields == map k | k in attr.members.Keys - todo :: Decode(attr.members[k], floats)
      decreases |todo|
    {
      var key :| key in todo;
      todo := todo - {key};
      var value := AttributeToJson(attr.members[key], floats);
      fields := fields[key := value];
    }
  }

  // -- Items -------------------------------------------------------------------------------------

  const NOT_AN_OBJECT := "Expected JSON object"

  // `json_to_dynamodb_item_helper`
  method JsonToItem(json: Json, floats: Floats) returns (item: Result<map<string, Attribute>, string>)
    ensures item == if json.Object? then Ok(Encode(json, floats).members) else Err(NOT_AN_OBJECT)
  {
    if !json.Object? {
      return Err(NOT_AN_OBJECT);
    }
    var members := EncodeMembers(json, floats);
    assert members == Encode(json, floats).members;
    return Ok(members);
  }

  // `dynamodb_item_to_json`
  method ItemToJson(item: map<string, Attribute>, floats: Floats) returns (json: Json)
    ensures json == Decode(M(item), floats)
  {
    var fields := DecodeMembers(M(item), floats);
    json := Object(fields);
  }

  // Writing an object as an item and reading the item gives the object back.
  method RoundTripItem(json: Json, floats: Floats) returns (read: Result<Json, string>)
    ensures json.Object? && NumbersFit(json) ==> read == Ok(json)
    ensures !json.Object? ==> read == Err(NOT_AN_OBJECT)
  {
    var item := JsonToItem(json, floats);
    if item.Err? {
      return Err(item.error);
    }
    var back := ItemToJson(item.value, floats);
    if NumbersFit(json) {
      DecodeEncode(json, floats);
    }
    return Ok(back);
  }

  // -- What stands for what --------------------------------------------------------------------

  // The attribute has the shape and the scalars of the value; a number is in decimal.
  ghost predicate StandsFor(attr: Attribute, value: Json)
    decreases value
  {
    match value
    case Null => attr == NullAttr(true)
    case Bool(b) => attr == BoolAttr(b)
    case String(s) => attr == S(s)
    case Number(n) => attr.N? && Decimal.Parse(attr.n) == Some(n) && Decimal.Canonical(attr.n)
    case Array(items) =>
      attr.L? && |attr.list| == |items| && forall i | 0 <= i < |items| :: StandsFor(attr.list[i], items[i])
    case Object(fields) =>
      attr.M? && attr.members.Keys == fields.Keys &&
        forall k | k in fields && k in attr.members :: StandsFor(attr.members[k], fields[k])
  }

  lemma {:induction false} EncodeStandsFor(value: Json, floats: Floats)
    requires NumbersFit(value)
    ensures StandsFor(Encode(value, floats), value)
    decreases value
  {
    match value
    case Number(n) =>
      Decimal.PrintParses(n);
      Decimal.PrintIsCanonical(n);
    case Array(items) =>
      forall i | 0 <= i < |items| ensures StandsFor(Encode(items[i], floats), items[i]) {
        EncodeStandsFor(items[i], floats);
      }
    case Object(fields) =>
      forall k | k in fields ensures StandsFor(Encode(fields[k], floats), fields[k]) {
        EncodeStandsFor(fields[k], floats);
      }
    case _ =>
  }

  // Attributes that no value is written as still read as something: sets as arrays of their texts,
  // numbers as integers or else floats or else their text, everything else as null.
  lemma OthersDecode(texts: seq<string>, n: string, b: bool, floats: Floats)
    ensures
      && Decode(Ss(texts), floats) == Decode(Ns(texts), floats)
      && Decode(Ss(texts), floats).Array? && |Decode(Ss(texts), floats).items| == |texts|
      && forall i | 0 <= i < |texts| :: Decode(Ss(texts), floats).items[i] == String(texts[i])
    ensures Decode(NullAttr(b), floats) == Null && Decode(Binary, floats) == Null
    ensures
      Decode(N(n), floats) ==
        if Decimal.Parse(n).Some? then Number(Decimal.Parse(n).value)
        else if floats.read(n).Some? then Number(floats.read(n).value)
        else String(n)
  {}
}
