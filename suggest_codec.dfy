/**
 The ClickHouse codec advisor: from a column's type name and whether its
 values are monotonic, pick one of four fixed CODEC strings by an ordered,
 first-match-wins table of case-insensitive substring tests.
 */
module SuggestCodec {
  import opened AsciiText

  const DoubleDeltaCodec: string := "CODEC(DoubleDelta, ZSTD(1))"
  const GorillaCodec: string := "CODEC(Gorilla, ZSTD(1))"
  const DeltaCodec: string := "CODEC(Delta, ZSTD(1))"
  const ZstdCodec: string := "CODEC(ZSTD(1))"

  /** The lower-cased type name mentions a date or a time. */
  predicate HasDateOrTime(dt: string) {
    Contains(dt, "date") || Contains(dt, "time")
  }

  /** The lower-cased type name mentions a float. */
  predicate HasFloat(dt: string) {
    Contains(dt, "float")
  }

  /** The lower-cased type name mentions an integer. */
  predicate HasInt(dt: string) {
    Contains(dt, "int")
  }

  /** `get_codec(data_type, is_monotonic)`: the rules in source order, the
      first one that matches decides. The int, string and fallback rules are
      kept apart although they give the same codec. */
  function GetCodec(dataType: string, isMonotonic: bool): (r: string)
    ensures r in {DoubleDeltaCodec, GorillaCodec, DeltaCodec, ZstdCodec}
    ensures |r| > 0
  {
    var dt := Lower(dataType);
    if isMonotonic && ContainsAny(dt, ["date", "time", "int"]) then
      DoubleDeltaCodec
    else if isMonotonic && Contains(dt, "float") then
      GorillaCodec
    else if ContainsAny(dt, ["date", "time"]) then
      DeltaCodec
    else if Contains(dt, "float") then
      GorillaCodec
    else if Contains(dt, "int") then
      ZstdCodec
    else if Contains(dt, "string") then
      ZstdCodec
    else
      ZstdCodec
  }

  /** The four codec strings are pairwise different, so "which codec" is "which rule group". */
  lemma CodecsDistinct()
    ensures DoubleDeltaCodec != GorillaCodec && DoubleDeltaCodec != DeltaCodec && DoubleDeltaCodec != ZstdCodec
    ensures GorillaCodec != DeltaCodec && GorillaCodec != ZstdCodec && DeltaCodec != ZstdCodec
  {
  }

  /** The `any(...)` tests of the table, spelled out token by token. */
  lemma AnyTokens(dt: string)
    ensures ContainsAny(dt, ["date", "time", "int"]) <==> HasDateOrTime(dt) || HasInt(dt)
    ensures ContainsAny(dt, ["date", "time"]) <==> HasDateOrTime(dt)
  {
    var three: seq<string> := ["date", "time", "int"];
    var two: seq<string> := ["date", "time"];
    assert three[0] == "date" && three[1] == "time" && three[2] == "int";
    assert two[0] == "date" && two[1] == "time";
  }

  /** DoubleDelta is chosen exactly for a monotonic column whose name mentions a date, a time or an int. */
  lemma DoubleDeltaIff(dataType: string, isMonotonic: bool)
    ensures var dt := Lower(dataType);
      GetCodec(dataType, isMonotonic) == DoubleDeltaCodec <==>
      isMonotonic && (HasDateOrTime(dt) || HasInt(dt))
  {
    CodecsDistinct();
    AnyTokens(Lower(dataType));
  }

  /** Delta is chosen exactly for a non-monotonic column whose name mentions a date or a time. */
  lemma DeltaIff(dataType: string, isMonotonic: bool)
    ensures var dt := Lower(dataType);
      GetCodec(dataType, isMonotonic) == DeltaCodec <==>
      !isMonotonic && HasDateOrTime(dt)
  {
    CodecsDistinct();
    AnyTokens(Lower(dataType));
  }

  /** Gorilla is chosen exactly for a float name that neither rule group before it claims. */
  lemma GorillaIff(dataType: string, isMonotonic: bool)
    ensures var dt := Lower(dataType);
      GetCodec(dataType, isMonotonic) == GorillaCodec <==>
      HasFloat(dt) && !HasDateOrTime(dt) && !(isMonotonic && HasInt(dt))
  {
    CodecsDistinct();
    AnyTokens(Lower(dataType));
  }

  /** ZSTD alone is chosen exactly when no date, time or float is named, and no integer is monotonic. */
  lemma ZstdIff(dataType: string, isMonotonic: bool)
    ensures var dt := Lower(dataType);
      GetCodec(dataType, isMonotonic) == ZstdCodec <==>
      !HasDateOrTime(dt) && !HasFloat(dt) && !(isMonotonic && HasInt(dt))
  {
    CodecsDistinct();
    AnyTokens(Lower(dataType));
  }

  /** The advice depends on the type name only through its lower-case form. */
  lemma CaseInsensitive(dataType: string, isMonotonic: bool)
    ensures GetCodec(dataType, isMonotonic) == GetCodec(Lower(dataType), isMonotonic)
  {
    LowerIdempotent(dataType);
  }

  /** Type names equal up to case get the same advice ("DATETIME" and "datetime"). */
  lemma SameAdviceIgnoringCase(a: string, b: string, isMonotonic: bool)
    requires EqualsIgnoringCase(a, b)
    ensures GetCodec(a, isMonotonic) == GetCodec(b, isMonotonic)
  {
    LowerEqualIff(a, b);
  }

  /** Monotonic date, time or integer columns get DoubleDelta, even when the name also mentions a float. */
  lemma MonotonicDoubleDelta(dataType: string)
    requires HasDateOrTime(Lower(dataType)) || HasInt(Lower(dataType))
    ensures GetCodec(dataType, true) == DoubleDeltaCodec
  {
    DoubleDeltaIff(dataType, true);
  }

  /** Non-monotonic date or time columns get Delta, whatever float/int/string they also mention. */
  lemma DateTimeDelta(dataType: string)
    requires HasDateOrTime(Lower(dataType))
    ensures GetCodec(dataType, false) == DeltaCodec
  {
    DeltaIff(dataType, false);
  }

  /** A float column without date, time or int gets Gorilla under either flag. */
  lemma FloatGorilla(dataType: string, isMonotonic: bool)
    requires HasFloat(Lower(dataType))
    requires !HasDateOrTime(Lower(dataType)) && !HasInt(Lower(dataType))
    ensures GetCodec(dataType, isMonotonic) == GorillaCodec
  {
  }

  /** Without date, time or int in the name the monotonic flag changes nothing. */
  lemma FlagIrrelevant(dataType: string)
    requires !HasDateOrTime(Lower(dataType)) && !HasInt(Lower(dataType))
    ensures GetCodec(dataType, true) == GetCodec(dataType, false)
  {
  }

  /** Without date, time or float the int, string and fallback rules all give
      plain ZSTD; only a monotonic integer escapes them, to DoubleDelta. */
  lemma GeneralZstd(dataType: string)
    requires !HasDateOrTime(Lower(dataType)) && !HasFloat(Lower(dataType))
    ensures GetCodec(dataType, false) == ZstdCodec
    ensures GetCodec(dataType, true) == ZstdCodec <==> !HasInt(Lower(dataType))
  {
    ZstdIff(dataType, false);
    ZstdIff(dataType, true);
  }

  // Worked examples of the advisor, one type name and flag each.

  lemma ExampleDateTimeMonotonic()
    ensures GetCodec("DateTime", true) == DoubleDeltaCodec
  {
    assert "Date" <= "DateTime";
    assert Lower("Date") == "date";
    ContainsLower("DateTime", "Date");
    MonotonicDoubleDelta("DateTime");
  }

  lemma ExampleUInt64Monotonic()
    ensures GetCodec("UInt64", true) == DoubleDeltaCodec
  {
    assert Lower("UInt64") == "uint64";
    assert "int" <= "uint64"[1..];
    MonotonicDoubleDelta("UInt64");
  }

  lemma ExampleFloat64Monotonic()
    ensures GetCodec("Float64", true) == GorillaCodec
  {
    assert Lower("Float64") == "float64";
    NotContainsMissingChar("float64", "date", 0);
    NotContainsMissingChar("float64", "time", 2);
    NotContainsMissingChar("float64", "int", 0);
    FloatGorilla("Float64", true);
  }

  lemma ExampleDate()
    ensures GetCodec("Date", false) == DeltaCodec
  {
    assert Lower("Date") == "date";
    DateTimeDelta("Date");
  }

  lemma ExampleFloat32()
    ensures GetCodec("Float32", false) == GorillaCodec
  {
    assert Lower("Float32") == "float32";
    NotContainsMissingChar("float32", "date", 0);
    NotContainsMissingChar("float32", "time", 2);
    NotContainsMissingChar("float32", "int", 0);
    FloatGorilla("Float32", false);
  }

  lemma ExampleInt32()
    ensures GetCodec("Int32", false) == ZstdCodec
  {
    assert Lower("Int32") == "int32";
    NotContainsMissingChar("int32", "date", 0);
    NotContainsMissingChar("int32", "time", 2);
    NotContainsMissingChar("int32", "float", 0);
    GeneralZstd("Int32");
  }

  lemma ExampleString()
    ensures GetCodec("String", false) == ZstdCodec
  {
    assert Lower("String") == "string";
    NotContainsMissingChar("string", "date", 0);
    NotContainsMissingChar("string", "time", 2);
    NotContainsMissingChar("string", "float", 0);
    GeneralZstd("String");
  }

  lemma ExampleUUID()
    ensures GetCodec("UUID", false) == ZstdCodec
  {
    assert Lower("UUID") == "uuid";
    NotContainsMissingChar("uuid", "date", 1);
    NotContainsMissingChar("uuid", "time", 0);
    NotContainsMissingChar("uuid", "float", 0);
    GeneralZstd("UUID");
  }

  /** The `--is_monotonic` token as a boolean: true when its lower-case form is one of `true`, `1`, `yes`. */
  function ParseFlag(token: string): (b: bool)
    ensures b <==> EqualsIgnoringCase(token, "true") || token == "1" || EqualsIgnoringCase(token, "yes")
  {
    LowerEqualIff(token, "true");
    LowerEqualIff(token, "1");
    OneIgnoringCase(token);
    LowerEqualIff(token, "yes");
    LowerOfLowercase("true");
    LowerOfLowercase("1");
    LowerOfLowercase("yes");
    Lower(token) in ["true", "1", "yes"]
  }

  /** No character other than "1" lower-cases to "1". */
  lemma OneIgnoringCase(token: string)
    ensures EqualsIgnoringCase(token, "1") <==> token == "1"
  {
  }

  /** Tokens the command line accepts as true and as false, including the default "false". */
  lemma ParseFlagExamples()
    ensures ParseFlag("true") && ParseFlag("1") && ParseFlag("yes")
    ensures ParseFlag("TRUE") && ParseFlag("Yes")
    ensures !ParseFlag("false") && !ParseFlag("") && !ParseFlag("no") && !ParseFlag("2")
  {
  }
}
