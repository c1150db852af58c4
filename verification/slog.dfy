/**
 * The parts of Go's `log/slog` that the handler consumes: attributes and
 * their values, levels and records. Value resolution (`Value.Resolve`) is the
 * identity here: no value is a lazy `LogValuer`.
 */
module Slog {

  /** An opaque scalar as returned by `Value.Any()`; `Nil` is Go's `nil`. */
  datatype Any = Nil | Str(s: string) | Int(i: int) | Bool(b: bool)

  /** A resolved attribute value: a scalar, or a group of child attributes. */
  datatype Value = Scalar(x: Any) | Group(attrs: seq<Attr>)

  /** A key/value pair; an empty key on a group means "inline the children". */
  datatype Attr = Attr(key: string, value: Value)

  /**
   * The zero `slog.Attr{}`: empty key and the zero `Value`, whose kind is
   * `KindAny` holding `nil`.
   */
  const ZeroAttr: Attr := Attr("", Scalar(Nil))

  /** `attr.Equal(slog.Attr{})`. */
  predicate IsZero(a: Attr)
  {
    a == ZeroAttr
  }

  /** `slog.Level` is an integer; these are its four named values. */
  type Level = int

  const LevelDebug: Level := -4
  const LevelInfo: Level := 0
  const LevelWarn: Level := 4
  const LevelError: Level := 8

  /** A record as the handler sees it: message, level and attributes in order. */
  datatype Record = Record(message: string, level: Level, attrs: seq<Attr>)
}
