# ClickHouse codec advisor, modelled in Dafny

The `clickhouse-compression-codecs` skill ships a small script that recommends a
ClickHouse column compression codec. Given a column type name (`DateTime`,
`Float64`, `String`, ...) and whether the column's values are monotonic, it
lower-cases the type name and walks an ordered, first-match-wins table of
substring tests against the tokens `date`, `time`, `int`, `float` and
`string`. The answer is always one of four strings:

- `CODEC(DoubleDelta, ZSTD(1))`: monotonic date, time or integer columns.
- `CODEC(Gorilla, ZSTD(1))`: float columns.
- `CODEC(Delta, ZSTD(1))`: non-monotonic date or time columns.
- `CODEC(ZSTD(1))`: everything else.

The command line turns its free-form `--is_monotonic` token into a boolean by
lower-casing it and testing membership in `true`, `1`, `yes`.

The project has two modules:

- `AsciiText` (`ascii_text.dfy`) holds the string operations the table is built from:
  - `Lower` is ASCII lower-casing.
  - `Contains` is Python's `needle in hay`, proved equal to the positional definition of a substring.
  - `ContainsAny` is `any(x in hay for x in needles)`.
- `SuggestCodec` (`suggest_codec.dfy`) holds these parts:
  - `GetCodec` follows the rule order of `get_codec` exactly, including the separate int, string and fallback branches that all give `CODEC(ZSTD(1))`.
  - `ParseFlag` is the flag parse.
  - The lemmas state the table's behaviour. The four `...Iff` lemmas together characterise every outcome in both directions.

A precise reading of the "no date, time or float" case: a non-monotonic column
then always gets `CODEC(ZSTD(1))`. A monotonic one gets it only when the name
also lacks `int`, because `UInt64` with the flag set gets DoubleDelta.
`GeneralZstd` states both halves.

## Model

| member | source | states |
|---|---|---|
| `AsciiText.LowerChar` | skills/clickhouse-compression-codecs/scripts/suggest_codec.py:8 | the result is never an upper-case ASCII letter; only `A`-`Z` change, each by the fixed offset to `a`-`z`; the result is a lower-case letter exactly when the input was a letter of either case |
| `AsciiText.Lower` | skills/clickhouse-compression-codecs/scripts/suggest_codec.py:8 | `lower()` keeps the length and lower-cases every character in its own position |
| `AsciiText.LowerIdempotent` | skills/clickhouse-compression-codecs/scripts/suggest_codec.py:8 | lower-casing an already lower-cased string changes nothing |
| `AsciiText.LowerOfLowercase` | skills/clickhouse-compression-codecs/scripts/suggest_codec.py:51 | a string with no upper-case letter (such as `true`, `1`, `yes`) is its own lower-case form |
| `AsciiText.LowerEqualIff` | skills/clickhouse-compression-codecs/scripts/suggest_codec.py:51 | two strings have the same lower-case form if and only if they are equal character by character up to case |
| `AsciiText.Contains` | skills/clickhouse-compression-codecs/scripts/suggest_codec.py:14-37 | `needle in hay`: the empty needle is in every string, and a contained needle is never longer than the haystack; `ContainsIffOccurs` ties it to the positional definition |
| `AsciiText.ContainsIffOccurs` | skills/clickhouse-compression-codecs/scripts/suggest_codec.py:17 | the substring test `needle in hay` holds if and only if the needle occurs at some index of the haystack |
| `AsciiText.ContainsLower` | skills/clickhouse-compression-codecs/scripts/suggest_codec.py:8 | a substring of the original name survives lower-casing as the lower-cased substring (`DateTime` contains `Date`, so its lower-case form contains `date`, as `ExampleDateTimeMonotonic` uses) |
| `AsciiText.NotContainsMissingChar` | skills/clickhouse-compression-codecs/scripts/suggest_codec.py:17 | a token with a character the name lacks is not a substring of the name |
| `AsciiText.ContainsAny` | skills/clickhouse-compression-codecs/scripts/suggest_codec.py:14 | `any(x in dt for x in tokens)` holds if and only if some token of the list is a substring |
| `SuggestCodec.GetCodec` | skills/clickhouse-compression-codecs/scripts/suggest_codec.py:4-41 | total: every type name and flag gets one of the four codec strings, never an empty one |
| `SuggestCodec.CodecsDistinct` | skills/clickhouse-compression-codecs/scripts/suggest_codec.py:15-41 | the four codec strings returned are pairwise different |
| `SuggestCodec.AnyTokens` | skills/clickhouse-compression-codecs/scripts/suggest_codec.py:14-22 | the two `any(...)` tests are the disjunctions of their token tests |
| `SuggestCodec.DoubleDeltaIff` | skills/clickhouse-compression-codecs/scripts/suggest_codec.py:12-15 | DoubleDelta is returned if and only if the flag is set and the lower-cased name contains `date`, `time` or `int` |
| `SuggestCodec.DeltaIff` | skills/clickhouse-compression-codecs/scripts/suggest_codec.py:12-23 | Delta is returned if and only if the flag is clear and the lower-cased name contains `date` or `time` |
| `SuggestCodec.GorillaIff` | skills/clickhouse-compression-codecs/scripts/suggest_codec.py:12-28 | Gorilla is returned if and only if the name contains `float`, not `date`/`time`, and not `int` while the flag is set |
| `SuggestCodec.ZstdIff` | skills/clickhouse-compression-codecs/scripts/suggest_codec.py:12-41 | plain ZSTD is returned if and only if the name contains none of `date`, `time`, `float`, and not `int` while the flag is set |
| `SuggestCodec.CaseInsensitive` | skills/clickhouse-compression-codecs/scripts/suggest_codec.py:8 | the advice for a name equals the advice for its lower-cased form |
| `SuggestCodec.SameAdviceIgnoringCase` | skills/clickhouse-compression-codecs/scripts/suggest_codec.py:8 | names equal up to case (`DATETIME`, `datetime`) get the same advice under either flag |
| `SuggestCodec.MonotonicDoubleDelta` | skills/clickhouse-compression-codecs/scripts/suggest_codec.py:12-15 | with the flag set, a name containing `date`, `time` or `int` gets DoubleDelta, even if it also contains `float` |
| `SuggestCodec.DateTimeDelta` | skills/clickhouse-compression-codecs/scripts/suggest_codec.py:20-23 | with the flag clear, a name containing `date` or `time` gets Delta whatever else it contains |
| `SuggestCodec.FloatGorilla` | skills/clickhouse-compression-codecs/scripts/suggest_codec.py:16-28 | a name containing `float` but none of `date`, `time`, `int` gets Gorilla under both flag values |
| `SuggestCodec.FlagIrrelevant` | skills/clickhouse-compression-codecs/scripts/suggest_codec.py:12-28 | without `date`, `time` or `int` in the name the monotonic flag does not change the advice |
| `SuggestCodec.GeneralZstd` | skills/clickhouse-compression-codecs/scripts/suggest_codec.py:30-41 | without `date`, `time` or `float`, the int, string and fallback rules all give plain ZSTD when the flag is clear; with the flag set the result is plain ZSTD exactly when `int` is absent too |
| `SuggestCodec.ExampleDateTimeMonotonic` | skills/clickhouse-compression-codecs/scripts/suggest_codec.py:12-15 | `DateTime` with the flag set gets DoubleDelta |
| `SuggestCodec.ExampleUInt64Monotonic` | skills/clickhouse-compression-codecs/scripts/suggest_codec.py:12-15 | `UInt64` with the flag set gets DoubleDelta |
| `SuggestCodec.ExampleFloat64Monotonic` | skills/clickhouse-compression-codecs/scripts/suggest_codec.py:16-18 | `Float64` with the flag set gets Gorilla |
| `SuggestCodec.ExampleDate` | skills/clickhouse-compression-codecs/scripts/suggest_codec.py:20-23 | `Date` with the flag clear gets Delta |
| `SuggestCodec.ExampleFloat32` | skills/clickhouse-compression-codecs/scripts/suggest_codec.py:25-28 | `Float32` with the flag clear gets Gorilla |
| `SuggestCodec.ExampleInt32` | skills/clickhouse-compression-codecs/scripts/suggest_codec.py:30-33 | `Int32` with the flag clear gets plain ZSTD |
| `SuggestCodec.ExampleString` | skills/clickhouse-compression-codecs/scripts/suggest_codec.py:35-38 | `String` with the flag clear gets plain ZSTD |
| `SuggestCodec.ExampleUUID` | skills/clickhouse-compression-codecs/scripts/suggest_codec.py:40-41 | an unknown type such as `UUID` falls through to plain ZSTD |
| `SuggestCodec.ParseFlag` | skills/clickhouse-compression-codecs/scripts/suggest_codec.py:51 | the flag is true if and only if the token equals `true` or `yes` up to case, or is exactly `1` |
| `SuggestCodec.OneIgnoringCase` | skills/clickhouse-compression-codecs/scripts/suggest_codec.py:51 | the only token equal to `1` up to case is `1` itself |
| `SuggestCodec.ParseFlagExamples` | skills/clickhouse-compression-codecs/scripts/suggest_codec.py:46-51 | `true`, `1`, `yes`, `TRUE`, `Yes` parse to true; the default `false`, and `""`, `no`, `2` parse to false |

## Left out

- Command-line plumbing (`argparse` set-up, the required-argument error, printing the result, lines 43-56) has no logic beyond the flag parse, which is modelled as `ParseFlag`.
- `AsciiText.Lower` models ASCII `A`-`Z` only, not Python's full Unicode `str.lower()`. No non-ASCII character lower-cases into any of the tokens tested. The Kelvin sign becomes `k`, which no token contains. `İ` becomes `i` followed by a combining dot, which cannot complete `int`, `time` or `string`. So the choice of codec is unaffected. The flag parse is unaffected too, because `true`, `1` and `yes` contain neither `k` nor `i`.
- Whether ClickHouse supports a suggested codec, or benefits from it, is knowledge carried only in the source's comments, not behaviour of the code.
