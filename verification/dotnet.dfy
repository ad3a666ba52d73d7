/** The small part of the .NET base library that both controllers lean on:
    nullable references, 128-bit guids, bytes, and the whitespace tests
    behind `string.IsNullOrWhiteSpace`. */
module DotNet {

  /** A nullable reference: `None` stands for C#'s `null`. */
  datatype Option<+T> = None | Some(value: T) {
    /** The C# `??` operator: the value, or `default` when null. */
    function GetOr(default: T): (r: T)
      ensures Some? ==> r == value
      ensures None? ==> r == default
    {
      match this
      case Some(v) => v
      case None => default
    }
  }

  /** `System.Guid` is a 128-bit value. */
  newtype Guid = x: int | 0 <= x < 0x1_0000_0000_0000_0000_0000_0000_0000_0000

  /** `DateTime.Now` is read from the clock; the model only carries it through. */
  type DateTime = int

  newtype byte = x: int | 0 <= x < 256

  /** `char.IsWhiteSpace`: the Unicode space, line and paragraph separators
      (categories Zs, Zl, Zp) plus the control characters U+0009..U+000D and U+0085. */
  predicate IsWhiteSpace(c: char) {
    || '\U{9}' <= c <= '\U{D}'
    || c == '\U{20}'
    || c == '\U{85}'
    || c == '\U{A0}'
    || c == '\U{1680}'
    || '\U{2000}' <= c <= '\U{200A}'
    || c == '\U{2028}'
    || c == '\U{2029}'
    || c == '\U{202F}'
    || c == '\U{205F}'
    || c == '\U{3000}'
  }

  /** True when every character of `s` is whitespace (vacuously for ""). */
  function AllWhiteSpace(s: string): (r: bool)
    ensures r <==> forall i | 0 <= i < |s| :: IsWhiteSpace(s[i])
  {
    if |s| == 0 then true
    else IsWhiteSpace(s[0]) && AllWhiteSpace(s[1..])
  }

  /** `string.IsNullOrWhiteSpace`: null, empty, or whitespace only. */
  function IsNullOrWhiteSpace(s: Option<string>): (r: bool)
    ensures r <==> s.None? || forall i | 0 <= i < |s.value| :: IsWhiteSpace(s.value[i])
    ensures s.Some? && |s.value| == 0 ==> r
    ensures s.Some? && |s.value| > 0 && !IsWhiteSpace(s.value[0]) ==> !r
  {
    match s
    case None => true
    case Some(v) => AllWhiteSpace(v)
  }
}
