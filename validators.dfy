/** The input checks of `src/utils/validators.js`: each is a chain of guards, the first failing
    one decides the message, and `{ valid: true }` is returned when none fails. */
module Validators {
  import opened Wrappers
  import opened Helpers

  /** `{ valid, error }`; a successful check carries no `error` key. */
  datatype Validation = Validation(valid: bool, error: Option<string>)

  const Ok := Validation(true, None)

  function Fail(message: string): Validation {
    Validation(false, Some(message))
  }

  /** `s` without its trailing whitespace. */
  function TrimEnd(s: string): (r: string)
    ensures |r| <= |s| && r == s[..|r|]
    ensures r == [] || !IsJsWhitespace(r[|r| - 1])
    ensures forall i :: |r| <= i < |s| ==> IsJsWhitespace(s[i])
  {
    if s != [] && IsJsWhitespace(s[|s| - 1]) then TrimEnd(s[..|s| - 1]) else s
  }

  /** `s.trim()` */
  function Trim(s: string): string {
    TrimEnd(TrimStart(s))
  }

  /** `s.trim().length === 0` holds exactly for the strings made of whitespace only. */
  lemma TrimEmptyIffBlank(s: string)
    ensures Trim(s) == [] <==> !HasText(s)
  {
    var t := TrimStart(s);
    assert t != [] ==> !IsJsWhitespace(t[0]) && t[0] == s[|s| - |t|];
  }

  /** `s.length`: the number of UTF-16 code units, two for a character beyond the basic plane. */
  function Utf16Length(s: string): (n: nat)
    ensures |s| <= n <= 2 * |s|
  {
    if s == [] then 0
    else Utf16Length(s[..|s| - 1]) + if s[|s| - 1] <= '\U{FFFF}' then 1 else 2
  }

  /** `length` counts the units `slice` indexes. */
  lemma {:induction false} Utf16LengthCountsUnits(s: string)
    ensures Utf16Length(s) == |Utf16Units(s)|
  {
    if s != [] {
      Utf16LengthCountsUnits(s[..|s| - 1]);
    }
  }

  /** In the basic multilingual plane, `length` counts characters. */
  lemma {:induction false} Utf16LengthOfBasicPlane(s: string)
    requires forall i :: 0 <= i < |s| ==> s[i] <= '\U{FFFF}'
    ensures Utf16Length(s) == |s|
  {
    if s != [] {
      Utf16LengthOfBasicPlane(s[..|s| - 1]);
    }
  }

  /** `!v || typeof v !== 'string' || v.trim().length === 0`: not a string with a
      non-whitespace character. */
  predicate Blank(v: Value) {
    Falsy(v) || !v.Str? || Trim(v.s) == []
  }

  /** A value is blank exactly when it is not a string holding a non-whitespace character. */
  lemma BlankIff(v: Value)
    ensures Blank(v) <==> !(v.Str? && HasText(v.s))
  {
    if v.Str? {
      TrimEmptyIffBlank(v.s);
    }
  }

  /** `v.length > limit`: a string or array longer than `limit`, or an object whose `length`
      property, converted to a number as `>` converts it, exceeds it. An object without
      `length` gives `undefined`, which converts to `NaN`; a number or boolean has no `length`
      either. */
  predicate LongerThan(v: Value, limit: int) {
    match v
    case Str(s) => Utf16Length(s) > limit
    case Arr(items) => |items| > limit
    case Obj(fields) => "length" in fields && Above(ToNumber(fields["length"]), limit)
    case _ => false
  }

  /** A number as a comparison sees it: `NaN`, an infinity, or a finite value, kept exact. */
  datatype Number = NaN | Finite(x: real) | Infinity(positive: bool)

  /** `n > limit`, which is false for `NaN`. */
  predicate Above(n: Number, limit: int) {
    match n
    case NaN => false
    case Finite(x) => x > limit as real
    case Infinity(positive) => positive
  }

  /** `ToNumber(v)`. An array converts through its text, `join(",")`: with no element it is
      empty and reads as 0, with two or more it holds a comma and reads as `NaN`, and with one
      it is that element's text, empty for `null` and `undefined`. A number's text reads back
      as the number (`NumberTextRoundTrip`), a boolean's as `NaN`, and an object's,
      `"[object Object]"`, as `NaN`. */
  function ToNumber(v: Value): Number {
    match v
    case Undefined => NaN
    case Null => Finite(0.0)
    case Bool(b) => Finite(if b then 1.0 else 0.0)
    case Num(n) => Finite(n as real)
    case Str(s) => StringToNumber(s)
    case Arr(items) =>
      if |items| == 0 then Finite(0.0)
      else if |items| > 1 then NaN
      else
        (match items[0]
         case Undefined => Finite(0.0)
         case Null => Finite(0.0)
         case Bool(_) => NaN
         case Obj(_) => NaN
         case _ => ToNumber(items[0]))
    case Obj(_) => NaN
  }

  /** `c` is a digit of the radix (2, 8, 10 or 16). */
  predicate IsDigitOf(c: char, radix: nat) {
    HexDigit(c).Some? && HexDigit(c).value < radix
  }

  /** The number of leading digits of the radix. */
  function DigitCount(s: string, radix: nat): (n: nat)
    ensures n <= |s|
    ensures forall i :: 0 <= i < n ==> IsDigitOf(s[i], radix)
    ensures n == |s| || !IsDigitOf(s[n], radix)
  {
    if s != [] && IsDigitOf(s[0], radix) then 1 + DigitCount(s[1..], radix) else 0
  }

  /** The value of a string of digits, most significant first. */
  function DigitsValue(s: string, radix: nat): nat {
    if s == [] then 0 else DigitsValue(s[..|s| - 1], radix) * radix + HexDigit(s[|s| - 1]).GetOr(0)
  }

  function Pow10(e: nat): (r: nat)
    ensures r > 0
  {
    if e == 0 then 1 else 10 * Pow10(e - 1)
  }

  /** `x` times ten to the power `e`. */
  function Scale(x: real, e: int): real {
    if e >= 0 then x * Pow10(e) as real else x / Pow10(-e) as real
  }

  /** The radix a `0x`, `0o` or `0b` prefix announces by its letter; 0 for any other letter. */
  function RadixOf(c: char): nat {
    if c == 'x' || c == 'X' then 16
    else if c == 'o' || c == 'O' then 8
    else if c == 'b' || c == 'B' then 2
    else 0
  }

  /** The exponent `e` or `E`, an optional sign and at least one digit introduce, or 0 when
      there is none; `None` when the text is anything else. */
  function Exponent(tail: string): Option<int> {
    if tail == [] then Some(0)
    else if tail[0] != 'e' && tail[0] != 'E' then None
    else
      var signed := tail[1..];
      var digits := if signed != [] && (signed[0] == '+' || signed[0] == '-') then signed[1..] else signed;
      if digits == [] || DigitCount(digits, 10) < |digits| then None
      else if signed[0] == '-' then Some(-(DigitsValue(digits, 10) as int))
      else Some(DigitsValue(digits, 10))
  }

  /** An unsigned decimal literal: `Infinity`, or digits with an optional fraction (at least
      one digit on either side of the point) and an optional exponent. */
  function UnsignedDecimal(u: string): Number {
    if u == "Infinity" then Infinity(true)
    else
      var n := DigitCount(u, 10);
      Fraction(u[..n], u[n..])
  }

  /** The literal whose integer digits are `whole` and whose text goes on with `rest`: a
      point and the fraction digits after it, if any, then the exponent. */
  function Fraction(whole: string, rest: string): Number {
    if rest != [] && rest[0] == '.' then
      var afterPoint := rest[1..];
      var f := DigitCount(afterPoint, 10);
      Literal(whole, afterPoint[..f], afterPoint[f..])
    else Literal(whole, [], rest)
  }

  /** The literal with these integer and fraction digits, followed by `tail`. */
  function Literal(whole: string, frac: string, tail: string): Number {
    var e := Exponent(tail);
    if whole == [] && frac == [] then NaN
    else if e.None? then NaN
    else Finite(Scale(Mantissa(whole, frac), e.value))
  }

  /** The value of the digits `whole.frac`. */
  function Mantissa(whole: string, frac: string): real {
    (DigitsValue(whole, 10) * Pow10(|frac|) + DigitsValue(frac, 10)) as real / Pow10(|frac|) as real
  }

  /** `StringToNumber(s)`: the text without its surrounding whitespace, read as a number. */
  function StringToNumber(s: string): Number {
    NumericText(Trim(s))
  }

  /** A trimmed text as a number: empty is 0; otherwise a `0x`, `0o` or `0b` prefix followed
      by digits of that radix, or an optionally signed decimal literal; anything else is
      `NaN`. */
  function NumericText(t: string): Number {
    if t == [] then Finite(0.0)
    else if |t| >= 2 && t[0] == '0' && RadixOf(t[1]) > 0 then RadixLiteral(t[2..], RadixOf(t[1]))
    else if t[0] == '-' then Negated(UnsignedDecimal(t[1..]))
    else if t[0] == '+' then UnsignedDecimal(t[1..])
    else UnsignedDecimal(t)
  }

  /** At least one digit of the radix, and nothing else. */
  function RadixLiteral(digits: string, radix: nat): Number {
    if digits != [] && DigitCount(digits, radix) == |digits| then Finite(DigitsValue(digits, radix) as real) else NaN
  }

  /** `-n` */
  function Negated(n: Number): Number {
    match n
    case NaN => NaN
    case Finite(x) => Finite(-x)
    case Infinity(positive) => Infinity(!positive)
  }

  /** The decimal digit of a value below ten. */
  function DigitChar(d: nat): char
    requires d < 10
  {
    ('0' as nat + d) as char
  }

  /** The decimal text `String(n)` of a natural number. */
  function DecimalText(n: nat): (r: string)
    ensures r != [] && forall i :: 0 <= i < |r| ==> IsDigitOf(r[i], 10)
    ensures DigitsValue(r, 10) == n
  {
    if n < 10 then [DigitChar(n)]
    else
      var r := DecimalText(n / 10) + [DigitChar(n % 10)];
      assert r[..|r| - 1] == DecimalText(n / 10);
      r
  }

  /** The text `String(n)` of an integer: its digits, after a minus sign when negative. */
  function NumberText(n: int): string {
    if n < 0 then "-" + DecimalText(-n) else DecimalText(n)
  }

  /** A run of digits is all digits. */
  lemma {:induction false} DigitCountAll(s: string, radix: nat)
    requires forall i :: 0 <= i < |s| ==> IsDigitOf(s[i], radix)
    ensures DigitCount(s, radix) == |s|
  {
    if s != [] {
      DigitCountAll(s[1..], radix);
    }
  }

  /** A text that starts and ends with characters other than whitespace is its own trim. */
  lemma TrimKeeps(s: string)
    requires s != [] && !IsJsWhitespace(s[0]) && !IsJsWhitespace(s[|s| - 1])
    ensures Trim(s) == s
  {
    assert TrimStart(s) == s;
    assert TrimEnd(s) == s;
  }

  /** A run of decimal digits reads as its value. */
  lemma DigitsRead(s: string)
    requires s != [] && DigitCount(s, 10) == |s|
    ensures StringToNumber(s) == Finite(DigitsValue(s, 10) as real)
  {
    UnsignedDigits(s);
    DigitsTrimmed(s);
    UnsignedText(s);
  }

  /** A text that starts with two digits, or is one digit, is an unsigned decimal literal. */
  lemma UnsignedText(s: string)
    requires s != [] && IsDigitOf(s[0], 10) && (|s| >= 2 ==> IsDigitOf(s[1], 10))
    ensures NumericText(s) == UnsignedDecimal(s)
  {
    NoMark(s[0]);
    if |s| >= 2 {
      NoMark(s[1]);
    }
  }

  /** A digit is neither a sign, a radix letter nor whitespace. */
  lemma NoMark(c: char)
    requires IsDigitOf(c, 10)
    ensures RadixOf(c) == 0 && c != '-' && c != '+' && !IsJsWhitespace(c)
  {
  }

  /** A run of digits has no surrounding whitespace. */
  lemma DigitsTrimmed(s: string)
    requires s != [] && DigitCount(s, 10) == |s|
    ensures Trim(s) == s
  {
    var last := |s| - 1;
    assert IsDigitOf(s[0], 10) && IsDigitOf(s[last], 10);
    NoMark(s[0]);
    NoMark(s[last]);
    TrimKeeps(s);
  }

  /** An unsigned run of decimal digits is a decimal literal without point or exponent. */
  lemma UnsignedDigits(s: string)
    requires s != [] && DigitCount(s, 10) == |s|
    ensures UnsignedDecimal(s) == Finite(DigitsValue(s, 10) as real)
  {
    NotInfinity(s);
    var n := DigitCount(s, 10);
    assert s[..n] == s && s[n..] == [];
    assert Fraction(s, []) == Literal(s, [], []);
    WholeNumber(s);
  }

  /** A text that starts with a digit is not "Infinity". */
  lemma NotInfinity(s: string)
    requires s != [] && IsDigitOf(s[0], 10)
    ensures s != "Infinity"
  {
    assert "Infinity"[0] == 'I';
  }

  /** Digits without fraction or exponent are their value. */
  lemma WholeNumber(whole: string)
    requires whole != []
    ensures Literal(whole, [], []) == Finite(DigitsValue(whole, 10) as real)
  {
    assert Exponent([]) == Some(0);
    assert Mantissa(whole, []) == DigitsValue(whole, 10) as real;
  }

  /** The text of an integer reads back as that integer: `Number(String(n)) === n`. */
  lemma NumberTextRoundTrip(n: int)
    ensures StringToNumber(NumberText(n)) == Finite(n as real)
  {
    var d := DecimalText(if n < 0 then -n else n);
    DigitCountAll(d, 10);
    if n < 0 {
      UnsignedDigits(d);
      NegativeText(d);
    } else {
      DigitsRead(d);
    }
  }

  /** A minus sign before a run of digits negates its value. */
  lemma NegativeText(d: string)
    requires d != [] && DigitCount(d, 10) == |d|
    ensures StringToNumber("-" + d) == Finite(-(DigitsValue(d, 10) as real))
  {
    var t := "-" + d;
    UnsignedDigits(d);
    assert t[0] == '-' && t[1..] == d;
    assert NumericText(t) == Negated(UnsignedDecimal(d));
    assert t[|t| - 1] == d[|d| - 1] && IsDigitOf(d[|d| - 1], 10);
    TrimKeeps(t);
  }

  /** A `length` given as a number's text, or as an array holding the number, is compared as
      that number. */
  lemma LengthCoerced(n: int, limit: int)
    ensures LongerThan(Obj(map["length" := Str(NumberText(n))]), limit) <==> n > limit
    ensures LongerThan(Obj(map["length" := Arr([Num(n)])]), limit) <==> n > limit
  {
    NumberTextRoundTrip(n);
    assert ToNumber(Str(NumberText(n))) == Finite(n as real);
    assert ToNumber(Arr([Num(n)])) == Finite(n as real);
    LengthProperty(Str(NumberText(n)), limit);
    LengthProperty(Arr([Num(n)]), limit);
  }

  /** An object's `length` property is compared after conversion to a number. */
  lemma LengthProperty(v: Value, limit: int)
    ensures LongerThan(Obj(map["length" := v]), limit) <==> Above(ToNumber(v), limit)
  {
    assert map["length" := v]["length"] == v;
  }

  /** A description object whose `length` is the text "3000", or the array `[3000]`, is too
      long. */
  lemma DescriptionLengthExamples()
    ensures ValidateCard(Obj(map["title" := Str("t"), "description" := Obj(map["length" := Str("3000")])])) ==
      Fail("Card description must be 2000 characters or less")
    ensures ValidateCard(Obj(map["title" := Str("t"), "description" := Obj(map["length" := Arr([Num(3000)])])])) ==
      Fail("Card description must be 2000 characters or less")
  {
    ThreeThousandText();
    LengthCoerced(3000, 2000);
    TitledCard(Obj(map["length" := Str("3000")]));
    TitledCard(Obj(map["length" := Arr([Num(3000)])]));
  }

  /** The text of 3000. */
  lemma ThreeThousandText()
    ensures NumberText(3000) == "3000"
  {
    assert DecimalText(3) == "3";
    assert DecimalText(30) == "30";
    assert DecimalText(300) == "300";
  }

  /** A description object whose `length` is "3000px", which converts to `NaN`, passes. */
  lemma DescriptionNaNLengthExample()
    ensures ValidateCard(Obj(map["title" := Str("t"), "description" := Obj(map["length" := Str("3000px")])])) == Ok
  {
    TextWithUnitIsNaN();
    LengthProperty(Str("3000px"), 2000);
    TitledCard(Obj(map["length" := Str("3000px")]));
  }

  /** A number followed by a unit is not a numeric text. */
  lemma TextWithUnitIsNaN()
    ensures StringToNumber("3000px") == NaN
  {
    var t := "3000px";
    assert TrimStart(t) == t && TrimEnd(t) == t;
    UnsignedText(t);
    assert DigitCount(t, 10) == 4 by {
      assert t[1..][1..][1..][1..] == "px";
    }
    assert t[..4] == "3000" && t[4..] == "px";
    assert Fraction("3000", "px") == Literal("3000", [], "px");
  }

  /** A card titled "t" with a description: only the description can fail it. */
  lemma TitledCard(description: Value)
    ensures ValidateCard(Obj(map["title" := Str("t"), "description" := description])) ==
      if !Falsy(description) && LongerThan(description, 2000) then Fail("Card description must be 2000 characters or less")
      else Ok
  {
    var card := Obj(map["title" := Str("t"), "description" := description]);
    assert Get(card, "title") == Str("t") && Get(card, "description") == description;
    assert "tags" !in card.fields;
    TitleT();
  }

  /** The title "t" is neither blank nor too long. */
  lemma TitleT()
    ensures !Blank(Str("t")) && Utf16Length("t") == 1
  {
    assert Str("t").s[0] == 't';
    NotBlank("t");
    Utf16LengthOfBasicPlane("t");
  }

  /** `!v || typeof v !== 'object'`: objects, arrays and `null` are of type `'object'`. */
  predicate NotAnObject(v: Value) {
    Falsy(v) || !(v.Obj? || v.Arr?)
  }

  /** `validateCard(card)` */
  function ValidateCard(card: Value): (r: Validation)
    ensures r.valid <==> r.error.None?
  {
    if NotAnObject(card) then Fail("Card must be an object")
    else if Blank(Get(card, "title")) then Fail("Card title is required")
    else if LongerThan(Get(card, "title"), 200) then Fail("Card title must be 200 characters or less")
    else if !Falsy(Get(card, "description")) && LongerThan(Get(card, "description"), 2000)
    then Fail("Card description must be 2000 characters or less")
    else if !Falsy(Get(card, "tags")) && !Get(card, "tags").Arr? then Fail("Tags must be an array")
    else Ok
  }

  /** A card passes exactly when it is an object with a string title holding a non-whitespace
      character and at most 200 UTF-16 units, a falsy or short enough description and falsy or
      array tags. */
  lemma ValidCardIff(card: Value)
    ensures ValidateCard(card).valid <==>
      && (card.Obj? || card.Arr?)
      && Get(card, "title").Str?
      && HasText(Get(card, "title").s)
      && Utf16Length(Get(card, "title").s) <= 200
      && (Falsy(Get(card, "description")) || !LongerThan(Get(card, "description"), 2000))
      && (Falsy(Get(card, "tags")) || Get(card, "tags").Arr?)
  {
    ValidCardGuards(card);
    TitleGuards(Get(card, "title"), 200);
    assert NotAnObject(card) <==> !(card.Obj? || card.Arr?);
  }

  /** The title guards pass exactly for a string holding a non-whitespace character and at
      most `limit` UTF-16 units. */
  lemma TitleGuards(title: Value, limit: int)
    ensures !Blank(title) && !LongerThan(title, limit) <==>
      title.Str? && HasText(title.s) && Utf16Length(title.s) <= limit
  {
    BlankIff(title);
  }

  /** A card is valid exactly when it passes each guard of `validateCard` in turn. */
  lemma ValidCardGuards(card: Value)
    ensures ValidateCard(card).valid <==>
      && !NotAnObject(card) && !Blank(Get(card, "title")) && !LongerThan(Get(card, "title"), 200)
      && (Falsy(Get(card, "description")) || !LongerThan(Get(card, "description"), 2000))
      && (Falsy(Get(card, "tags")) || Get(card, "tags").Arr?)
  {
  }

  /** `validateList(list)` */
  function ValidateList(list: Value): (r: Validation)
    ensures r.valid <==> r.error.None?
  {
    if NotAnObject(list) then Fail("List must be an object")
    else if Blank(Get(list, "title")) then Fail("List title is required")
    else if LongerThan(Get(list, "title"), 100) then Fail("List title must be 100 characters or less")
    else Ok
  }

  /** A list passes exactly when it is an object with a string title holding a non-whitespace
      character and at most 100 UTF-16 units. */
  lemma ValidListIff(list: Value)
    ensures ValidateList(list).valid <==>
      && (list.Obj? || list.Arr?)
      && Get(list, "title").Str?
      && HasText(Get(list, "title").s)
      && Utf16Length(Get(list, "title").s) <= 100
  {
    TitleGuards(Get(list, "title"), 100);
    assert NotAnObject(list) <==> !(list.Obj? || list.Arr?);
  }

  /** `validateTag(tag)` */
  function ValidateTag(tag: Value): (r: Validation)
    ensures r.valid <==> r.error.None?
  {
    if Blank(tag) then Fail("Tag must be a non-empty string")
    else if LongerThan(tag, 30) then Fail("Tag must be 30 characters or less")
    else Ok
  }

  /** A tag passes exactly when it is a string holding a non-whitespace character and at most
      30 UTF-16 units. */
  lemma ValidTagIff(tag: Value)
    ensures ValidateTag(tag).valid <==> tag.Str? && HasText(tag.s) && Utf16Length(tag.s) <= 30
  {
    BlankIff(tag);
  }

  /** The first failing check names the error: a card that is not an object is reported as such
      whatever else is wrong with it, and a card whose title is missing or blank is reported for
      its title whatever its description and tags are. */
  lemma CardChecksInOrder(card: Value)
    ensures NotAnObject(card) ==> ValidateCard(card) == Fail("Card must be an object")
    ensures !NotAnObject(card) && Blank(Get(card, "title")) ==>
      ValidateCard(card) == Fail("Card title is required")
    ensures !NotAnObject(card) && !Blank(Get(card, "title")) && Utf16Length(Get(card, "title").s) > 200 ==>
      ValidateCard(card) == Fail("Card title must be 200 characters or less")
    ensures !NotAnObject(card) && !Blank(Get(card, "title")) && Utf16Length(Get(card, "title").s) <= 200
            && !Falsy(Get(card, "description")) && LongerThan(Get(card, "description"), 2000) ==>
      ValidateCard(card) == Fail("Card description must be 2000 characters or less")
  {
  }

  /** The tags are checked last: a card that passes the object, title and description checks
      is rejected for its tags exactly when they are truthy and not an array, and passes
      otherwise. */
  lemma TagsCheckedLast(card: Value)
    requires !NotAnObject(card) && !Blank(Get(card, "title")) && Utf16Length(Get(card, "title").s) <= 200
    requires Falsy(Get(card, "description")) || !LongerThan(Get(card, "description"), 2000)
    ensures !Falsy(Get(card, "tags")) && !Get(card, "tags").Arr? ==> ValidateCard(card) == Fail("Tags must be an array")
    ensures Falsy(Get(card, "tags")) || Get(card, "tags").Arr? ==> ValidateCard(card) == Ok
  {
  }

  /** Every character lies in the basic multilingual plane. */
  predicate BasicPlane(s: string) {
    forall i :: 0 <= i < |s| ==> s[i] <= '\U{FFFF}'
  }

  /** Some character is not whitespace. */
  predicate HasText(s: string) {
    exists i :: 0 <= i < |s| && !IsJsWhitespace(s[i])
  }

  /** A card whose only key is a non-blank title passes up to 200 characters and is rejected as
      too long from 201 on. */
  lemma CardTitleLimit(title: string)
    requires BasicPlane(title) && HasText(title)
    ensures ValidateCard(Obj(map["title" := Str(title)])) ==
      if |title| <= 200 then Ok else Fail("Card title must be 200 characters or less")
  {
    TitleOnly(title);
    TextLimit(title, 200);
  }

  /** A list title passes up to 100 characters and is rejected as too long from 101 on. */
  lemma ListTitleLimit(title: string)
    requires BasicPlane(title) && HasText(title)
    ensures ValidateList(Obj(map["title" := Str(title)])) ==
      if |title| <= 100 then Ok else Fail("List title must be 100 characters or less")
  {
    TitleOnly(title);
    TextLimit(title, 100);
  }

  /** A tag passes up to 30 characters and is rejected as too long from 31 on. */
  lemma TagLengthLimit(tag: string)
    requires BasicPlane(tag) && HasText(tag)
    ensures ValidateTag(Str(tag)) == if |tag| <= 30 then Ok else Fail("Tag must be 30 characters or less")
  {
    TextLimit(tag, 30);
  }

  /** An object whose only key is `title` has that title, and no description or tags. */
  lemma TitleOnly(title: string)
    ensures var v := Obj(map["title" := Str(title)]);
      && !NotAnObject(v) && Get(v, "title") == Str(title)
      && Get(v, "description") == Undefined && Get(v, "tags") == Undefined
  {
    var v := Obj(map["title" := Str(title)]);
    assert "description" !in v.fields && "tags" !in v.fields;
  }

  /** A basic-plane string with a non-whitespace character is not blank, and is longer than
      `limit` exactly when it has more than `limit` characters. */
  lemma TextLimit(s: string, limit: int)
    requires BasicPlane(s) && HasText(s)
    ensures !Blank(Str(s)) && (LongerThan(Str(s), limit) <==> |s| > limit)
  {
    Utf16LengthOfBasicPlane(s);
    NotBlank(s);
  }

  /** A string with a non-whitespace character is not blank. */
  lemma NotBlank(s: string)
    requires HasText(s)
    ensures !Blank(Str(s))
  {
    TrimEmptyIffBlank(s);
  }

  /** An empty or whitespace-only tag is rejected as empty. */
  lemma BlankTagRejected(tag: string)
    requires forall i :: 0 <= i < |tag| ==> IsJsWhitespace(tag[i])
    ensures ValidateTag(Str(tag)) == Fail("Tag must be a non-empty string")
  {
    TrimEmptyIffBlank(tag);
  }

  /** The cards `src/utils/__tests__/validators.test.js` checks: a titled card with a
      description and an empty tag array passes; a card without a title is rejected for its
      title. */
  lemma CardExamples(title: string, description: string)
    requires BasicPlane(title) && HasText(title) && |title| <= 200
    requires BasicPlane(description) && |description| <= 2000
    ensures ValidateCard(Obj(map["title" := Str(title), "description" := Str(description), "tags" := Arr([])])).valid
    ensures ValidateCard(Obj(map["description" := Str(description)])) == Fail("Card title is required")
  {
    var card := Obj(map["title" := Str(title), "description" := Str(description), "tags" := Arr([])]);
    assert Get(card, "title") == Str(title);
    assert Get(card, "description") == Str(description);
    assert Get(card, "tags") == Arr([]);
    Utf16LengthOfBasicPlane(title);
    Utf16LengthOfBasicPlane(description);
    assert !LongerThan(Str(description), 2000);
    ValidCardIff(card);
    UntitledCard(description);
  }

  /** A card with a description and no title is rejected for its title. */
  lemma UntitledCard(description: string)
    ensures ValidateCard(Obj(map["description" := Str(description)])) == Fail("Card title is required")
  {
    var untitled := Obj(map["description" := Str(description)]);
    assert "title" !in untitled.fields;
    assert Get(untitled, "title") == Undefined;
  }

  /** The lists the tests check: a titled list passes, an empty object is rejected for its title. */
  lemma ListExamples(title: string)
    requires BasicPlane(title) && HasText(title) && |title| <= 100
    ensures ValidateList(Obj(map["title" := Str(title)])).valid
    ensures ValidateList(Obj(map[])) == Fail("List title is required")
  {
    ListTitleLimit(title);
    UntitledList();
  }

  /** An empty object is rejected for its title. */
  lemma UntitledList()
    ensures ValidateList(Obj(map[])) == Fail("List title is required")
  {
    assert Get(Obj(map[]), "title") == Undefined;
  }

  /** The tag the tests accept. */
  lemma TagExample()
    ensures ValidateTag(Str("test")).valid
  {
    assert Str("test").s[0] == 't';
    Utf16LengthOfBasicPlane("test");
    ValidTagIff(Str("test"));
  }
}
