/** The inline conversion the fee handlers apply to `dueDate` and `paidDate`:
    a non-empty string is split on `-` into day, month and year, and the date
    is built from (year, month - 1, day). JavaScript's `Date` constructor
    itself (month and day rollover, two-digit years, the local time zone) is
    not modelled: it is the parameter `construct`. */
module DayMonthYear {
  import opened Common

  // ---------------------------------------------------------------------------
  // String.prototype.split with a one-character separator

  function Split(s: string, sep: char): (parts: seq<string>)
    ensures |parts| >= 1
    ensures forall i | 0 <= i < |parts| :: sep !in parts[i]
  {
    if s == [] then [""]
    else
      var rest := Split(s[1..], sep);
      if s[0] == sep then [""] + rest
      else [[s[0]] + rest[0]] + rest[1..]
  }

  /** `parts.join(sep)`, the inverse of `Split`. */
  function Join(parts: seq<string>, sep: char): string
    requires |parts| >= 1
  {
    if |parts| == 1 then parts[0] else parts[0] + [sep] + Join(parts[1..], sep)
  }

  lemma {:induction false} JoinConsFirst(c: char, parts: seq<string>, sep: char)
    requires |parts| >= 1
    ensures Join([[c] + parts[0]] + parts[1..], sep) == [c] + Join(parts, sep)
  {
    var q := [[c] + parts[0]] + parts[1..];
    assert q[1..] == parts[1..];
  }

  lemma {:induction false} JoinSplit(s: string, sep: char)
    ensures Join(Split(s, sep), sep) == s
  {
    if s != [] {
      var rest := Split(s[1..], sep);
      JoinSplit(s[1..], sep);
      if s[0] == sep {
        assert ([""] + rest)[1..] == rest;
      } else {
        JoinConsFirst(s[0], rest, sep);
      }
      assert s == [s[0]] + s[1..];
    }
  }

  /** Text without the separator stays in one piece and joins the first part
      of whatever follows it. */
  lemma {:induction false} SplitPrefix(a: string, t: string, sep: char)
    requires sep !in a
    ensures Split(a + t, sep) == [a + Split(t, sep)[0]] + Split(t, sep)[1..]
  {
    if a != [] {
      SplitPrefix(a[1..], t, sep);
      assert (a + t)[1..] == a[1..] + t;
      assert (a + t)[0] == a[0];
      assert [a[0]] + (a[1..] + Split(t, sep)[0]) == a + Split(t, sep)[0];
    } else {
      var st := Split(t, sep);
      assert a + t == t && a + st[0] == st[0];
      assert st == [st[0]] + st[1..];
    }
  }

  lemma {:induction false} SplitJoin(parts: seq<string>, sep: char)
    requires |parts| >= 1
    requires forall i | 0 <= i < |parts| :: sep !in parts[i]
    ensures Split(Join(parts, sep), sep) == parts
  {
    if |parts| == 1 {
      SplitPrefix(parts[0], [], sep);
      assert Split([], sep) == [""];
      assert parts[0] + [] == parts[0];
    } else {
      var tail := Join(parts[1..], sep);
      SplitJoin(parts[1..], sep);
      assert Join(parts, sep) == parts[0] + ([sep] + tail);
      var st := Split([sep] + tail, sep);
      assert ([sep] + tail)[1..] == tail;
      assert st == [""] + parts[1..];
      SplitPrefix(parts[0], [sep] + tail, sep);
      assert st[0] == "" && st[1..] == parts[1..];
      assert parts[0] + "" == parts[0];
      assert parts == [parts[0]] + parts[1..];
    }
  }

  // ---------------------------------------------------------------------------
  // Number(text) for the integer numerals a date string holds

  predicate IsDigit(c: char) { '0' <= c <= '9' }

  predicate IsDigits(s: string) {
    forall i | 0 <= i < |s| :: IsDigit(s[i])
  }

  function DecimalValue(s: string): nat
    requires IsDigits(s)
  {
    if s == [] then 0
    else DecimalValue(s[..|s| - 1]) * 10 + (s[|s| - 1] as int - '0' as int)
  }

  /** The decimal numeral of `n`, without leading zeros. */
  function DecimalText(n: nat): (r: string)
    ensures |r| >= 1 && IsDigits(r)
  {
    var d := ('0' as int + n % 10) as char;
    if n < 10 then [d] else DecimalText(n / 10) + [d]
  }

  lemma {:induction false} DecimalRoundTrip(n: nat)
    ensures DecimalValue(DecimalText(n)) == n
  {
    var r := DecimalText(n);
    if n >= 10 {
      DecimalRoundTrip(n / 10);
      assert r[..|r| - 1] == DecimalText(n / 10);
    }
  }

  /** JavaScript's `Number(text)` on the numerals this model covers: surrounding
      white space is ignored, empty text is 0, and an optionally signed run of
      decimal digits is its value; any other text is NaN (None). Fractions,
      exponents, hexadecimal and `Infinity` are not modelled. */
  function NumberOf(text: string): (r: Option<int>)
    ensures Trim(text) == [] ==> r == Some(0)
    ensures IsDigits(Trim(text)) ==> r == Some(DecimalValue(Trim(text)))
    ensures Trim(text) != [] && !IsDigit(Trim(text)[0]) && Trim(text)[0] != '+' && Trim(text)[0] != '-' ==> r.None?
    ensures r.Some? && r.value < 0 ==> Trim(text)[0] == '-'
    ensures var t := Trim(text);
            r.Some? <==> t == [] || IsDigits(t) || (|t| > 1 && (t[0] == '+' || t[0] == '-') && IsDigits(t[1..]))
    ensures var t := Trim(text);
            |t| > 1 && t[0] == '+' && IsDigits(t[1..]) ==> r == Some(DecimalValue(t[1..]))
    ensures var t := Trim(text);
            |t| > 1 && t[0] == '-' && IsDigits(t[1..]) ==> r == Some(-(DecimalValue(t[1..]) as int))
  {
    SignedDecimal(Trim(text))
  }

  /** The value of trimmed numeric text. */
  function SignedDecimal(t: string): Option<int> {
    if t == [] then Some(0)
    else if t[0] == '+' && |t| > 1 && IsDigits(t[1..]) then Some(DecimalValue(t[1..]))
    else if t[0] == '-' && |t| > 1 && IsDigits(t[1..]) then Some(-(DecimalValue(t[1..]) as int))
    else if IsDigits(t) then Some(DecimalValue(t))
    else None
  }

  /** A run of digits converts to its decimal value. */
  lemma NumberOfDigits(s: string)
    requires IsDigits(s) && s != []
    ensures NumberOf(s) == Some(DecimalValue(s))
  {
    assert IsDigit(s[0]) && IsDigit(s[|s| - 1]);
    TrimOfTrimmed(s);
  }

  lemma DigitsHaveNoDash(s: string)
    requires IsDigits(s)
    ensures '-' !in s
  {
    forall k | 0 <= k < |s| ensures s[k] != '-' {
      assert IsDigit(s[k]);
    }
  }

  /** `Number(v)` where `v` may be `undefined` (None), which is NaN. */
  function ToNumber(v: Option<string>): Option<int> {
    match v
    case None => None
    case Some(text) => NumberOf(text)
  }

  // ---------------------------------------------------------------------------
  // DD-MM-YYYY

  /** The arguments handed to `new Date(year, monthIndex, day)`. */
  datatype DateParts = DateParts(year: int, monthIndex: int, day: int)

  /** The destructured element `i` of an array, `undefined` past its end. */
  function Part(parts: seq<string>, i: nat): Option<string> {
    if i < |parts| then Some(parts[i]) else None
  }

  /** `const [day, month, year] = s.split('-')` and `(year, month - 1, day)`;
      None when any of the three is NaN, which makes an Invalid Date. */
  function ParseDayMonthYear(s: string): (r: Option<DateParts>)
    ensures r.Some? <==> && |Split(s, '-')| >= 3 && NumberOf(Split(s, '-')[0]).Some?
                         && NumberOf(Split(s, '-')[1]).Some? && NumberOf(Split(s, '-')[2]).Some?
  {
    FromParts(Split(s, '-'))
  }

  /** The date arguments from the pieces of the split string: the third is the
      year, the second the month counted from one, the first the day; pieces
      after the third are ignored. */
  function FromParts(parts: seq<string>): (r: Option<DateParts>)
    ensures r.Some? <==> |parts| >= 3 && NumberOf(parts[0]).Some? && NumberOf(parts[1]).Some? && NumberOf(parts[2]).Some?
    ensures r.Some? ==> r.value == DateParts(NumberOf(parts[2]).value, NumberOf(parts[1]).value - 1, NumberOf(parts[0]).value)
  {
    var day := ToNumber(Part(parts, 0));
    var month := ToNumber(Part(parts, 1));
    var year := ToNumber(Part(parts, 2));
    if day.Some? && month.Some? && year.Some? then
      Some(DateParts(year.value, month.value - 1, day.value))
    else None
  }

  /** Text with fewer than two dashes lacks a year, so it is an Invalid Date. */
  lemma FewerThanThreePartsInvalid(s: string)
    requires |Split(s, '-')| < 3
    ensures ParseDayMonthYear(s) == None
  {
  }

  /** Three runs of digits joined by dashes split back into those three runs. */
  lemma {:induction false} SplitDigitRuns(d: string, m: string, y: string)
    requires IsDigits(d) && IsDigits(m) && IsDigits(y)
    ensures Split(d + "-" + m + "-" + y, '-') == [d, m, y]
  {
    var parts := [d, m, y];
    DigitsHaveNoDash(d);
    DigitsHaveNoDash(m);
    DigitsHaveNoDash(y);
    assert Join(parts, '-') == d + "-" + m + "-" + y by {
      assert parts[1..] == [m, y] && parts[1..][1..] == [y];
      assert Join(parts[1..], '-') == m + ['-'] + y;
    }
    SplitJoin(parts, '-');
  }

  /** Day, month and year given as runs of digits (leading zeros allowed) come
      back as (year, month - 1, day). */
  lemma {:induction false} ParseDigitRuns(d: string, m: string, y: string)
    requires IsDigits(d) && IsDigits(m) && IsDigits(y)
    requires d != [] && m != [] && y != []
    ensures ParseDayMonthYear(d + "-" + m + "-" + y)
            == Some(DateParts(DecimalValue(y), DecimalValue(m) - 1, DecimalValue(d)))
  {
    SplitDigitRuns(d, m, y);
    FromDigitRuns(d, m, y);
  }

  lemma FromDigitRuns(d: string, m: string, y: string)
    requires IsDigits(d) && IsDigits(m) && IsDigits(y)
    requires d != [] && m != [] && y != []
    ensures FromParts([d, m, y]) == Some(DateParts(DecimalValue(y), DecimalValue(m) - 1, DecimalValue(d)))
  {
    NumberOfDigits(d);
    NumberOfDigits(m);
    NumberOfDigits(y);
    var parts := [d, m, y];
    assert parts[0] == d && parts[1] == m && parts[2] == y;
  }

  /** Day, month and year written out as decimals and joined by dashes come back
      as (year, month - 1, day). */
  lemma {:induction false} ParseFormatted(day: nat, month: nat, year: nat)
    ensures ParseDayMonthYear(DecimalText(day) + "-" + DecimalText(month) + "-" + DecimalText(year))
            == Some(DateParts(year, month - 1, day))
  {
    ParseDigitRuns(DecimalText(day), DecimalText(month), DecimalText(year));
    DecimalRoundTrip(day);
    DecimalRoundTrip(month);
    DecimalRoundTrip(year);
  }

  lemma ExampleDigits()
    ensures IsDigits("15") && IsDigits("03") && IsDigits("2024")
    ensures DecimalValue("15") == 15 && DecimalValue("03") == 3 && DecimalValue("2024") == 2024
  {
    assert "15"[..1] == "1" && "1"[..0] == "";
    assert "03"[..1] == "0" && "0"[..0] == "";
    assert "2024"[..3] == "202" && "202"[..2] == "20" && "20"[..1] == "2" && "2"[..0] == "";
  }

  /** The worked example: "15-03-2024" is 15 March 2024, month index 2. */
  lemma {:induction false} ParseExample()
    ensures ParseDayMonthYear("15-03-2024") == Some(DateParts(2024, 2, 15))
  {
    ExampleDigits();
    ParseDigitRuns("15", "03", "2024");
    assert "15" + "-" + "03" + "-" + "2024" == "15-03-2024";
  }

  // ---------------------------------------------------------------------------
  // The request field and what the store makes of it

  /** A date field of a request body: absent, a non-string value the store reads
      as an instant, a string, or the Invalid Date a failed conversion yields. */
  datatype DateField = Unset | At(t: Instant) | Text(s: string) | InvalidDate

  /** The rewrite applied to `dueDate` and `paidDate`: only a non-empty string is
      converted; every other value is passed on as it came. */
  function NormaliseField(f: DateField, construct: DateParts -> Instant): (r: DateField)
    ensures !(f.Text? && f.s != "") ==> r == f
    ensures f.Text? && f.s != "" ==>
              (ParseDayMonthYear(f.s).Some? <==> r.At?) && (ParseDayMonthYear(f.s).None? <==> r.InvalidDate?)
    ensures r.At? && f.Text? ==> r.t == construct(ParseDayMonthYear(f.s).value)
  {
    match f
    case Text(s) =>
      if s == "" then f
      else (match ParseDayMonthYear(s)
            case Some(p) => At(construct(p))
            case None => InvalidDate)
    case _ => f
  }

  /** What is left of a string after the rewrite is at most the empty string. */
  predicate IsNormalised(f: DateField) {
    !(f.Text? && f.s != "")
  }

  lemma NormaliseFieldIdempotent(f: DateField, construct: DateParts -> Instant)
    ensures IsNormalised(NormaliseField(f, construct))
    ensures NormaliseField(NormaliseField(f, construct), construct) == NormaliseField(f, construct)
  {
  }

  /** How the store casts a date it is handed: an instant is kept, the empty
      string becomes null and an Invalid Date is a cast error. */
  function CastDate(f: DateField): (r: Outcome<Option<Instant>>)
    requires IsNormalised(f)
    ensures r.Err? <==> f.InvalidDate?
    ensures r.Ok? ==> (r.value.Some? <==> f.At?) && (f.At? ==> r.value.value == f.t)
  {
    match f
    case Unset => Ok(None)
    case At(t) => Ok(Some(t))
    case Text(_) => Ok(None)
    case InvalidDate => Err(BadRequest)
  }
}
