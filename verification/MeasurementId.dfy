/** Measurement ids: what is encoded in them, and what can be read back. */
module MeasurementId {
  import opened Common

  // ---------------------------------------------------------------- numbers in base 62

  const BASE: nat := 62

  function DigitValue(c: char): Option<nat> {
    if '0' <= c <= '9' then Some((c - '0') as nat)
    else if 'A' <= c <= 'Z' then Some(10 + (c - 'A') as nat)
    else if 'a' <= c <= 'z' then Some(36 + (c - 'a') as nat)
    else None
  }

  /** The digits are 0-9, A-Z and a-z, in this order. */
  function Digit(n: nat): (c: char)
    requires n < BASE
    ensures DigitValue(c) == Some(n)
  {
    if n < 10 then '0' + n as char else if n < 36 then 'A' + (n - 10) as char else 'a' + (n - 36) as char
  }

  const NUMERALS := "0123456789"
  const CAPITALS := "ABCDEFGHIJKLMNOPQRSTUVWXYZ"
  const SMALL_LETTERS := "abcdefghijklmnopqrstuvwxyz"

  /** Numerals, capitals and small letters are the digits, in the order of their values. */
  lemma DigitsInOrder(n: nat)
    requires n < 62
    ensures Digit(n) == if n < 10 then NUMERALS[n] else if n < 36 then CAPITALS[n - 10] else SMALL_LETTERS[n - 36]
  {
    assert forall k :: 0 <= k < 10 ==> NUMERALS[k] as int == 48 + k;
    assert forall k :: 0 <= k < 26 ==> CAPITALS[k] as int == 65 + k && SMALL_LETTERS[k] as int == 97 + k;
  }

  function EncodeInteger(n: nat): string {
    if n < BASE then [Digit(n)] else EncodeInteger(n / BASE) + [Digit(n % BASE)]
  }

  function DecodeInteger(s: string): Option<nat> {
    if s == "" then Some(0)
    else
      var init, last := DecodeInteger(s[..|s| - 1]), DigitValue(s[|s| - 1]);
      if init.Some? && last.Some? then Some(init.value * BASE + last.value) else None
  }

  lemma {:induction false} DecodeEncode(n: nat)
    ensures DecodeInteger(EncodeInteger(n)) == Some(n) && EncodeInteger(n) != ""
    ensures n > 0 ==> EncodeInteger(n)[0] != '0'
  {
    if n < BASE {
      assert [Digit(n)][..0] == "";
    } else {
      DecodeEncode(n / BASE);
      var s := EncodeInteger(n);
      assert s[..|s| - 1] == EncodeInteger(n / BASE);
    }
  }

  lemma DigitIsUnique(c: char, n: nat)
    requires n < BASE && DigitValue(c) == Some(n)
    ensures c == Digit(n)
  {
  }

  lemma EncodeOneMore(init: nat, c: char, last: nat)
    requires init > 0 && last < BASE && DigitValue(c) == Some(last)
    ensures EncodeInteger(init * BASE + last) == EncodeInteger(init) + [c]
  {
    Division(init * BASE + last, init, last, BASE);
    DigitIsUnique(c, last);
  }

  /** A number without leading zeros is what its value is encoded as. */
  lemma {:induction false} EncodeDecode(s: string)
    requires s != "" && s[0] != '0' && DecodeInteger(s).Some?
    ensures EncodeInteger(DecodeInteger(s).value) == s && DecodeInteger(s).value > 0
  {
    var n := |s| - 1;
    var init, c := s[..n], s[n];
    var last := DigitValue(c).value;
    assert s == init + [c];
    if n == 0 {
      DigitIsUnique(c, last);
    } else {
      EncodeDecode(init);
      EncodeOneMore(DecodeInteger(init).value, c, last);
    }
  }

  function Power(k: nat): nat {
    if k == 0 then 1 else BASE * Power(k - 1)
  }

  lemma {:induction false} EncodedLength(n: nat, k: nat)
    requires k > 0
    ensures |EncodeInteger(n)| > k <==> n >= Power(k)
  {
    if n < BASE {
      PowerGrows(k);
    } else if k == 1 {
      DecodeEncode(n / BASE);
      assert Power(0) == 1 && Power(1) == BASE;
    } else {
      EncodedLength(n / BASE, k - 1);
      assert n / BASE >= Power(k - 1) <==> n >= BASE * Power(k - 1);
    }
  }

  lemma {:induction false} PowerGrows(k: nat)
    requires k > 0
    ensures Power(k) >= BASE
  {
    if k > 1 {
      PowerGrows(k - 1);
    } else {
      assert Power(0) == 1;
    }
  }

  // ---------------------------------------------------------------- ids

  datatype Tier = Anonymous | Member | Sponsor | Special

  function TierNumber(tier: Tier): nat {
    match tier
    case Anonymous => 0
    case Member => 1
    case Sponsor => 2
    case Special => 3
  }

  function TierOf(n: nat): Option<Tier> {
    if n == 0 then Some(Anonymous) else if n == 1 then Some(Member) else if n == 2 then Some(Sponsor) else if n == 3 then Some(Special) else None
  }

  datatype ParseError = UnsupportedVersion | TooShort | UnknownStrategy | UnknownLocation | UnknownTier | NotBase62

  datatype Parsed = Parsed(strategy: nat, location: nat, tier: Tier, minutes: nat, random: string)

  datatype Result = Ok(value: Parsed) | Err(error: ParseError)

  const VERSION: nat := 2
  const COMBINED: nat := 0
  const POSTGRES: nat := 1
  const POSTGRES_V1: nat := 0
  const RANDOM_LENGTH: nat := 16
  const MIN_LENGTH: nat := 24

  /** Minutes since the epoch, for a time value in milliseconds. */
  function ToIdTimestamp(createdAt: nat): nat {
    createdAt / 60000
  }

  function Generate(createdAt: nat, tier: Tier, random: string): string {
    EncodeInteger(VERSION) + random + EncodeInteger(COMBINED) + EncodeInteger(POSTGRES_V1) + EncodeInteger(TierNumber(tier)) +
    EncodeInteger(ToIdTimestamp(createdAt))
  }

  function Parse(id: string): Result {
    if id == "" || DigitValue(id[0]).None? then Err(NotBase62)
    else if DigitValue(id[0]) != Some(VERSION) then Err(UnsupportedVersion)
    else ParseV2(id)
  }

  function ParseV2(id: string): Result {
    if |id| < MIN_LENGTH then Err(TooShort)
    else
      var strategy, location, tier, minutes := DigitValue(id[17]), DigitValue(id[18]), DigitValue(id[19]), DecodeInteger(id[20..]);
      if strategy.None? then Err(NotBase62)
      else if strategy.value != COMBINED && strategy.value != POSTGRES then Err(UnknownStrategy)
      else if location.None? then Err(NotBase62)
      else if location.value != POSTGRES_V1 then Err(UnknownLocation)
      else if tier.None? then Err(NotBase62)
      else if TierOf(tier.value).None? then Err(UnknownTier)
      else if minutes.None? then Err(NotBase62)
      else Ok(Parsed(strategy.value, location.value, TierOf(tier.value).value, minutes.value, id[1..17]))
  }

  lemma GeneratedParts(createdAt: nat, tier: Tier, random: string)
    requires |random| == RANDOM_LENGTH
    ensures var id := Generate(createdAt, tier, random);
            && |id| == 20 + |EncodeInteger(ToIdTimestamp(createdAt))|
            && DigitValue(id[0]) == Some(VERSION) && id[1..17] == random && DigitValue(id[17]) == Some(COMBINED)
            && DigitValue(id[18]) == Some(POSTGRES_V1) && DigitValue(id[19]) == Some(TierNumber(tier))
            && id[20..] == EncodeInteger(ToIdTimestamp(createdAt))
  {
  }

  /** The version, the random part, the strategy, the location and the tier stand before the minutes, all in base 62. */
  lemma GeneratedLayout(createdAt: nat, tier: Tier, random: string)
    requires |random| == RANDOM_LENGTH
    ensures Generate(createdAt, tier, random) ==
            "2" + random + "00" + (match tier case Anonymous => "0" case Member => "1" case Sponsor => "2" case Special => "3") +
            EncodeInteger(createdAt / 60000)
  {
    assert EncodeInteger(0) == "0" && EncodeInteger(1) == "1" && EncodeInteger(2) == "2" && EncodeInteger(3) == "3";
  }

  /** An id can be read exactly if it was made at minute 62 * 62 * 62 or later, and then it says what it was made from. */
  lemma ParseGenerated(createdAt: nat, tier: Tier, random: string)
    requires |random| == RANDOM_LENGTH
    ensures Parse(Generate(createdAt, tier, random)) ==
            if ToIdTimestamp(createdAt) >= 62 * 62 * 62 then Ok(Parsed(COMBINED, POSTGRES_V1, tier, ToIdTimestamp(createdAt), random))
            else Err(TooShort)
  {
    GeneratedParts(createdAt, tier, random);
    var minutes := ToIdTimestamp(createdAt);
    EncodedLength(minutes, 3);
    assert Power(3) == 62 * 62 * 62 by {
      assert Power(0) == 1 && Power(1) == 62 && Power(2) == 62 * 62;
    }
    DecodeEncode(minutes);
  }

  /** Apart from the strategy that is never generated and from leading zeros, a readable id is the generated one. */
  lemma GenerateParsed(id: string)
    requires Parse(id).Ok? && Parse(id).value.strategy == COMBINED && id[20] != '0'
    ensures var p := Parse(id).value; Generate(p.minutes * 60000, p.tier, p.random) == id
  {
    var p := Parse(id).value;
    EncodeDecode(id[20..]);
    DigitIsUnique(id[0], VERSION);
    DigitIsUnique(id[17], COMBINED);
    DigitIsUnique(id[18], POSTGRES_V1);
    DigitIsUnique(id[19], TierNumber(p.tier));
    assert ToIdTimestamp(p.minutes * 60000) == p.minutes;
    assert id == [id[0]] + id[1..17] + [id[17]] + [id[18]] + [id[19]] + id[20..];
  }

  // ---------------------------------------------------------------- times

  const MS_PER_DAY: nat := 86_400_000
  const MS_PER_HOUR: nat := 3_600_000
  const MS_PER_MINUTE: nat := 60_000

  function Day(t: int): int {
    t / MS_PER_DAY
  }

  function HourFromTime(t: int): int {
    t / MS_PER_HOUR % 24
  }

  function MinFromTime(t: int): int {
    t / MS_PER_MINUTE % 60
  }

  function MsFromTime(t: int): int {
    t % 1000
  }

  function MakeTime(hour: int, min: int, sec: int, ms: int): int {
    hour * MS_PER_HOUR + min * MS_PER_MINUTE + sec * 1000 + ms
  }

  function MakeDate(day: int, time: int): int {
    day * MS_PER_DAY + time
  }

  function SecFromTime(t: int): int {
    t / 1000 % 60
  }

  /** A date object, whose setters change its time value (section 21.4.4 of ECMA-262). */
  class Date {
    var t: int

    constructor (t: int)
      ensures this.t == t
    {
      this.t := t;
    }

    method SetUTCSeconds(sec: int)
      modifies this
      ensures t == MakeDate(Day(old(t)), MakeTime(HourFromTime(old(t)), MinFromTime(old(t)), sec, MsFromTime(old(t))))
    {
      t := MakeDate(Day(t), MakeTime(HourFromTime(t), MinFromTime(t), sec, MsFromTime(t)));
    }

    method SetUTCMilliseconds(ms: int)
      modifies this
      ensures t == MakeDate(Day(old(t)), MakeTime(HourFromTime(old(t)), MinFromTime(old(t)), SecFromTime(old(t)), ms))
    {
      t := MakeDate(Day(t), MakeTime(HourFromTime(t), MinFromTime(t), SecFromTime(t), ms));
    }
  }

  /** Days, hours, minutes, seconds and milliseconds are the digits of a time value in a mixed base. */
  lemma PartsOfTime(day: int, hour: int, min: int, sec: int, ms: int)
    requires 0 <= hour < 24 && 0 <= min < 60 && 0 <= sec < 60 && 0 <= ms < 1000
    ensures var t := MakeDate(day, MakeTime(hour, min, sec, ms));
            Day(t) == day && HourFromTime(t) == hour && MinFromTime(t) == min && SecFromTime(t) == sec && MsFromTime(t) == ms
  {
    var t := MakeDate(day, MakeTime(hour, min, sec, ms));
    var hours := day * 24 + hour;
    var minutes := hours * 60 + min;
    var seconds := minutes * 60 + sec;
    assert t == seconds * 1000 + ms;
    Division(t, seconds, ms, 1000);
    Division(seconds, minutes, sec, 60);
    Division(minutes, hours, min, 60);
    Division(hours, day, hour, 24);
    assert t / MS_PER_MINUTE == seconds / 60 && t / MS_PER_HOUR == minutes / 60 && Day(t) == hours / 24 by {
      Division(t, minutes, sec * 1000 + ms, MS_PER_MINUTE);
      Division(t, hours, min * MS_PER_MINUTE + sec * 1000 + ms, MS_PER_HOUR);
      Division(t, day, hour * MS_PER_HOUR + min * MS_PER_MINUTE + sec * 1000 + ms, MS_PER_DAY);
    }
  }

  /** Rounding a creation time in place gives the time that the id stands for. */
  method RoundIdTime(createdAt: Date)
    modifies createdAt
    ensures createdAt.t == old(createdAt.t) / 60000 * 60000
  {
    var t := createdAt.t;
    createdAt.SetUTCSeconds(0);
    PartsOfTime(Day(t), HourFromTime(t), MinFromTime(t), 0, MsFromTime(t));
    createdAt.SetUTCMilliseconds(0);
    RoundedTime(t);
  }

  lemma RoundedTime(t: int)
    ensures MakeDate(Day(t), MakeTime(HourFromTime(t), MinFromTime(t), 0, 0)) == t / 60000 * 60000
  {
    var minutes, hours := t / MS_PER_MINUTE, t / MS_PER_HOUR;
    assert hours == minutes / 60 && Day(t) == hours / 24;
    assert hours == 24 * Day(t) + HourFromTime(t) && minutes == 60 * hours + MinFromTime(t);
  }
}
