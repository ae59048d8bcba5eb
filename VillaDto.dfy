/** The villa record exchanged by the API (Models/Dto/VillaDTO.cs): four
    properties, of which only Name carries validation attributes, plus the
    machine facts the controller relies on (C# `int` arithmetic, `null`,
    lower-casing of names). */
module VillaDto {

  /** A reference that may be `null` in C#: None is null. */
  datatype Option<+T> = None | Some(value: T)

  const Int32Min: int := -0x8000_0000
  const Int32Max: int := 0x7fff_ffff

  /** A C# `int`. */
  type Int32 = x: int | -0x8000_0000 <= x <= 0x7fff_ffff

  /** `x` reduced to 32 bits, as unchecked C# `int` arithmetic does. */
  function Wrap32(x: int): (r: Int32)
    ensures Int32Min <= x <= Int32Max ==> r == x
    ensures (r - x) % 0x1_0000_0000 == 0
  {
    (x - Int32Min) % 0x1_0000_0000 + Int32Min
  }

  /** VillaDTO: Id, Name (a string that may be null), Occupancy and SqFt. */
  datatype Villa = Villa(id: Int32, name: Option<string>, occupancy: Int32, sqFt: Int32)

  /** `char.IsWhiteSpace`: the Unicode space separators, the line and paragraph
      separators, U+0009 to U+000D, U+0085 and U+00A0. */
  predicate IsWhiteSpace(c: char)
  {
    ('\U{0009}' <= c <= '\U{000D}') || c == ' ' || c == '\U{0085}' || c == '\U{00A0}' ||
    c == '\U{1680}' || ('\U{2000}' <= c <= '\U{200A}') || c == '\U{2028}' || c == '\U{2029}' ||
    c == '\U{202F}' || c == '\U{205F}' || c == '\U{3000}'
  }

  /** Every character of `s` is white space (true of the empty string). */
  predicate AllWhiteSpace(s: string)
  {
    s == [] || (IsWhiteSpace(s[0]) && AllWhiteSpace(s[1..]))
  }

  /** `string.IsNullOrWhiteSpace`. */
  predicate IsNullOrWhiteSpace(n: Option<string>)
  {
    n.None? || AllWhiteSpace(n.value)
  }

  /** `[Required]` with its default `AllowEmptyStrings = false`: a name is
      present when it is not null and has a character that is not white space. */
  predicate Required(n: Option<string>)
    ensures Required(n) <==> n.Some? && exists i | 0 <= i < |n.value| :: !IsWhiteSpace(n.value[i])
  {
    if n.Some? then AllWhiteSpaceAt(n.value); !IsNullOrWhiteSpace(n)
    else !IsNullOrWhiteSpace(n)
  }

  /** `[MaxLength(20)]`: null passes, a string passes when it has at most 20
      characters. */
  predicate MaxLength20(n: Option<string>)
    ensures n.None? ==> MaxLength20(n)
    ensures n.Some? ==> (MaxLength20(n) <==> |n.value| < 21)
  {
    n.None? || |n.value| <= 20
  }

  /** The model validation of a VillaDTO: only Name is constrained, and a valid
      villa has a name of 1 to 20 characters. */
  predicate ValidVilla(v: Villa)
    ensures ValidVilla(v) ==> v.name.Some? && 0 < |v.name.value| <= 20
  {
    Required(v.name) && MaxLength20(v.name)
  }

  /** AllWhiteSpace, character by character. */
  lemma {:induction false} AllWhiteSpaceAt(s: string)
    ensures AllWhiteSpace(s) <==> forall i | 0 <= i < |s| :: IsWhiteSpace(s[i])
  {
    if s != [] {
      AllWhiteSpaceAt(s[1..]);
      assert forall i | 1 <= i < |s| :: s[i] == s[1..][i - 1];
    }
  }

  /** A valid villa has a name of 1 to 20 characters, one of them at least not
      white space. */
  lemma ValidVillaName(v: Villa)
    ensures ValidVilla(v) <==>
      v.name.Some? && 0 < |v.name.value| <= 20 &&
      exists i | 0 <= i < |v.name.value| :: !IsWhiteSpace(v.name.value[i])
  {
    if v.name.Some? {
      AllWhiteSpaceAt(v.name.value);
    }
  }

  /** Id, Occupancy and SqFt take part in no validation: any `int` values keep a
      villa valid or invalid. */
  lemma ValidityIgnoresNumbers(v: Villa, id: Int32, occupancy: Int32, sqFt: Int32)
    ensures ValidVilla(v.(id := id, occupancy := occupancy, sqFt := sqFt)) == ValidVilla(v)
  {
  }

  predicate IsAsciiUpper(c: char)
  {
    'A' <= c <= 'Z'
  }

  /** Lower-casing of one character, restricted to ASCII letters. */
  function LowerChar(c: char): (r: char)
    ensures IsAsciiUpper(c) ==> r as int == c as int + 32
    ensures !IsAsciiUpper(c) ==> r == c
    ensures !IsAsciiUpper(r)
  {
    if IsAsciiUpper(c) then (c as int + 32) as char else c
  }

  /** `string.ToLower()`, with ASCII case mapping. */
  function ToLower(s: string): (r: string)
    ensures |r| == |s|
    ensures forall i | 0 <= i < |s| :: r[i] == LowerChar(s[i])
  {
    if s == [] then [] else [LowerChar(s[0])] + ToLower(s[1..])
  }

  /** Lower-casing twice is lower-casing once, so "equal ignoring case" is the
      same test whichever side has already been lower-cased. */
  lemma ToLowerIdempotent(s: string)
    ensures ToLower(ToLower(s)) == ToLower(s)
  {
  }

  /** The names compared at the duplicate-name check of CreateVilla. */
  predicate SameNameIgnoringCase(a: string, b: string)
  {
    ToLower(a) == ToLower(b)
  }

  /** Names that differ only in the case of ASCII letters compare equal. */
  lemma {:induction false} CaseOnlyDifferenceIgnored(a: string, b: string)
    requires |a| == |b|
    requires forall i | 0 <= i < |a| :: a[i] == b[i] || LowerChar(a[i]) == b[i] || a[i] == LowerChar(b[i])
    ensures SameNameIgnoringCase(a, b)
  {
  }
}
