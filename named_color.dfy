/** Colour names: a floating-point RGBA colour looked up by its exact name,
    with magenta standing in for every name the table does not know. */
module NamedColor {

  datatype Color = Color(r: real, g: real, b: real, a: real)

  /** The colour returned for a name that is not in the table. */
  const Magenta: Color := Color(1.0, 0.0, 1.0, 1.0)

  /** The known names and their colours. */
  function ColorTable(): (t: map<string, Color>)
    ensures |t.Keys| == 3
  {
    var t := map["black" := Color(0.0, 0.0, 0.0, 1.0),
                 "white" := Color(1.0, 1.0, 1.0, 1.0),
                 "gray" := Color(0.5, 0.5, 0.5, 1.0)];
    assert t.Keys == {"black", "white", "gray"};
    t
  }

  predicate InUnitRange(x: real) {
    0.0 <= x <= 1.0
  }

  predicate IsNormalized(c: Color) {
    InUnitRange(c.r) && InUnitRange(c.g) && InUnitRange(c.b) && InUnitRange(c.a)
  }

  /** `parseColor`: the table entry for a known name, magenta otherwise.
      Every result is opaque and has every channel in [0, 1]. */
  function ParseColor(name: string): (c: Color)
    ensures c.a == 1.0 && IsNormalized(c)
    ensures name in ColorTable() ==> c == ColorTable()[name]
    ensures name !in ColorTable() ==> c == Magenta
  {
    if name in ColorTable() then ColorTable()[name] else Magenta
  }

  /** The fallback is told apart from every known colour, so a caller can
      recognise an unknown name by the colour it gets. */
  lemma FallbackIsDistinct(name: string)
    ensures ParseColor(name) == Magenta <==> name !in ColorTable()
  {
  }

  /** Names are matched exactly: no case folding, no trimming. */
  lemma NamesMatchExactly()
    ensures ParseColor("black") == Color(0.0, 0.0, 0.0, 1.0)
    ensures ParseColor("Black") == Magenta
    ensures ParseColor(" gray") == Magenta
  {
  }
}
