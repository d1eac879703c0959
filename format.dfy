/** Applying a declarative format request to one cell's style. Each category
    (font, fill, border) is rebuilt from scratch from the keys the request
    supplies and replaces the old one wholesale; nothing is merged. */
module Format {
  import opened Results
  import opened Workbook

  /** One key of a JSON object: absent, present with the value null, or present
      with a value. A present key counts as supplied even when it is null. */
  datatype Key<T> = Missing | Null | Given(value: T) {
    /** `spec.get(key, d)`: the default for an absent key, None for null. */
    function Get(d: T): (r: Option<T>)
      ensures Missing? ==> r == Some(d)
      ensures Null? ==> r == None
      ensures Given? ==> r == Some(value)
    {
      match this
      case Missing => Some(d)
      case Null => None
      case Given(v) => Some(v)
    }

    /** The argument a keyword receives: None for an absent or a null key. */
    function Arg(): (r: Option<T>)
      ensures r.Some? <==> Given?
      ensures Given? ==> r == Some(value)
    {
      if Given? then Some(value) else None
    }
  }

  /** The keys a request may give. A border side absent from the map is a side not
      given; a side mapped to None is one given as null. */
  datatype FontSpec = FontSpec(bold: Key<bool>, italic: Key<bool>, size: Key<int>, color: Key<string>)
  datatype FillSpec = FillSpec(fillType: Key<string>, pattern: Key<string>, fgColor: Key<string>)
  datatype SideSpec = SideSpec(style: Key<string>, color: Key<string>)
  datatype FormatSpec = FormatSpec(font: Key<FontSpec>, fill: Key<FillSpec>,
                                   border: Key<map<SideName, Option<SideSpec>>>)

  const NoFormat := FormatSpec(Missing, Missing, Missing)

  /** Some font key is present, with a value or with null. */
  predicate HasFontKey(f: FontSpec) {
    !f.bold.Missing? || !f.italic.Missing? || !f.size.Missing? || !f.color.Missing?
  }

  /** `Font(**font_kwargs)`: only the supplied keys, everything else unset; a key
      supplied as null leaves its attribute unset as well. */
  function FontOf(f: FontSpec): (r: Font)
    ensures r.name == None
    ensures r.bold.Some? <==> f.bold.Given?
    ensures r.italic.Some? <==> f.italic.Given?
    ensures r.size.Some? <==> f.size.Given?
    ensures r.color.Some? <==> f.color.Given?
    ensures f.bold.Given? ==> r.bold.value == f.bold.value
    ensures f.italic.Given? ==> r.italic.value == f.italic.value
    ensures f.size.Given? ==> r.size.value == f.size.value
    ensures f.color.Given? ==> r.color.value == f.color.value
  {
    Font(None, f.size.Arg(), f.bold.Arg(), f.italic.Arg(), f.color.Arg())
  }

  /** `PatternFill(fill_type=pattern or 'solid', fgColor=fgColor or 'FFFFFF')`. A null
      pattern leaves the fill without a pattern; a null colour is refused (None here),
      as the fill's foreground colour may not be unset. */
  function FillOf(f: FillSpec): (r: Option<Fill>)
    ensures r.None? <==> f.fgColor.Null?
    ensures r.Some? && f.pattern.Missing? ==> r.value.patternType == Some("solid")
    ensures r.Some? && f.pattern.Null? ==> r.value.patternType == None
    ensures r.Some? && f.pattern.Given? ==> r.value.patternType == Some(f.pattern.value)
    ensures r.Some? && f.fgColor.Given? ==> r.value.fgColor == f.fgColor.value
    ensures r.Some? && f.fgColor.Missing? ==> r.value.fgColor == "FFFFFF"
  {
    match f.fgColor.Get("FFFFFF")
    case None => None
    case Some(c) => Some(Fill(f.pattern.Get("solid"), c))
  }

  /** `Side(style=style or 'thin', color=color or '000000')`; a null leaves it unset. */
  function SideOf(s: SideSpec): (r: Side)
    ensures s.style.Missing? ==> r.style == Some("thin")
    ensures s.style.Null? ==> r.style == None
    ensures s.style.Given? ==> r.style == Some(s.style.value)
    ensures s.color.Missing? ==> r.color == Some("000000")
    ensures s.color.Null? ==> r.color == None
    ensures s.color.Given? ==> r.color == Some(s.color.value)
  {
    Side(s.style.Get("thin"), s.color.Get("000000"))
  }

  predicate IsPatternFill(f: FillSpec) { f.fillType == Given("pattern") }

  /** Some border side is given as null. */
  predicate HasNullSide(sides: map<SideName, Option<SideSpec>>) {
    exists s :: s in sides && sides[s].None?
  }

  /** The request makes the format code raise before anything is saved: a category
      given as null (no key can be looked up in it), a side given as null, or a
      pattern fill whose colour is null. */
  predicate Raises(spec: FormatSpec) {
    || spec.font.Null? || spec.fill.Null? || spec.border.Null?
    || (spec.fill.Given? && IsPatternFill(spec.fill.value) && spec.fill.value.fgColor.Null?)
    || (spec.border.Given? && HasNullSide(spec.border.value))
  }

  predicate ReplacesFont(spec: FormatSpec) { spec.font.Given? && HasFontKey(spec.font.value) }
  predicate ReplacesFill(spec: FormatSpec) { spec.fill.Given? && IsPatternFill(spec.fill.value) }
  predicate ReplacesBorder(spec: FormatSpec) { spec.border.Given? && spec.border.value != map[] }

  /** The style a cell has after the format request, or None when the request raises. */
  function Restyle(st: Style, spec: FormatSpec): (r: Option<Style>)
    ensures r.None? <==> Raises(spec)
    ensures r.Some? && ReplacesFont(spec) ==> r.value.font == FontOf(spec.font.value)
    ensures r.Some? && !ReplacesFont(spec) ==> r.value.font == st.font
    ensures r.Some? && ReplacesFill(spec) ==> FillOf(spec.fill.value) == Some(r.value.fill)
    ensures r.Some? && !ReplacesFill(spec) ==> r.value.fill == st.fill
    ensures r.Some? && ReplacesBorder(spec) ==> r.value.border.Keys == spec.border.value.Keys
    ensures r.Some? && ReplacesBorder(spec) ==>
      forall s :: s in r.value.border ==> spec.border.value[s].Some? && r.value.border[s] == SideOf(spec.border.value[s].value)
    ensures r.Some? && !ReplacesBorder(spec) ==> r.value.border == st.border
  {
    if Raises(spec) then None
    else
      Some(Style(
        if ReplacesFont(spec) then FontOf(spec.font.value) else st.font,
        if ReplacesFill(spec) then FillOf(spec.fill.value).value else st.fill,
        if ReplacesBorder(spec) then map s | s in spec.border.value :: SideOf(spec.border.value[s].value)
        else st.border))
  }

  /** Builds `border_kwargs` by visiting top, left, bottom and right in turn; a side
      given as null makes the lookup of its keys raise (None). */
  method BorderSides(spec: map<SideName, Option<SideSpec>>) returns (sides: Option<map<SideName, Side>>)
    ensures sides.None? <==> HasNullSide(spec)
    ensures sides.Some? ==> sides.value.Keys == spec.Keys
    ensures sides.Some? ==> forall s :: s in sides.value ==> spec[s].Some? && sides.value[s] == SideOf(spec[s].value)
  {
    var order := [Top, Left, Bottom, Right];
    forall s: SideName ensures s in order {
      match s
      case Top => assert order[0] == s;
      case Left => assert order[1] == s;
      case Bottom => assert order[2] == s;
      case Right => assert order[3] == s;
    }
    var kwargs := map[];
    var i := 0;
    while i < |order|
      invariant 0 <= i <= |order|
      invariant forall s :: s in kwargs <==> s in spec && s in order[..i]
      invariant forall s :: s in kwargs ==> spec[s].Some? && kwargs[s] == SideOf(spec[s].value)
    {
      var name := order[i];
      if name in spec {
        if spec[name].None? {
          return None;
        }
        kwargs := kwargs[name := SideOf(spec[name].value)];
      }
      i := i + 1;
    }
    assert order[..i] == order;
    sides := Some(kwargs);
  }

  /** Builds `font_kwargs` key by key; `given` says whether any key was supplied. */
  method FontKwargs(f: FontSpec) returns (kwargs: Font, given: bool)
    ensures given == HasFontKey(f)
    ensures kwargs == FontOf(f)
  {
    kwargs := Font(None, None, None, None, None);
    given := false;
    if !f.bold.Missing? { kwargs := kwargs.(bold := f.bold.Arg()); given := true; }
    if !f.italic.Missing? { kwargs := kwargs.(italic := f.italic.Arg()); given := true; }
    if !f.size.Missing? { kwargs := kwargs.(size := f.size.Arg()); given := true; }
    if !f.color.Missing? { kwargs := kwargs.(color := f.color.Arg()); given := true; }
  }

  /** The style computation of the format tool, step by step: collect the font
      keys, then the fill, then the border sides, assigning each category that
      received something usable; None where a null makes the code raise. */
  method FormatStyle(st: Style, spec: FormatSpec) returns (r: Option<Style>)
    ensures r == Restyle(st, spec)
  {
    var cur := st;
    if spec.font.Null? {
      return None;
    }
    if spec.font.Given? {
      var kwargs, given := FontKwargs(spec.font.value);
      if given {
        cur := cur.(font := kwargs);
      }
    }
    if spec.fill.Null? {
      return None;
    }
    if spec.fill.Given? {
      var f := spec.fill.value;
      if f.fillType == Given("pattern") {
        var color := f.fgColor.Get("FFFFFF");
        if color.None? {
          return None;
        }
        cur := cur.(fill := Fill(f.pattern.Get("solid"), color.value));
      }
    }
    if spec.border.Null? {
      return None;
    }
    if spec.border.Given? {
      var sides := BorderSides(spec.border.value);
      if sides.None? {
        return None;
      }
      if sides.value != map[] {
        cur := cur.(border := sides.value);
      }
    }
    assert !Raises(spec);
    assert cur.font == Restyle(st, spec).value.font;
    assert cur.fill == Restyle(st, spec).value.fill;
    assert cur.border == Restyle(st, spec).value.border;
    r := Some(cur);
  }

  // ---------------------------------------------------------------------------
  // Replace, not merge

  /** A replaced category depends on the request alone, never on the old style. */
  lemma ReplacedIgnoresOld(a: Style, b: Style, spec: FormatSpec)
    requires !Raises(spec)
    ensures ReplacesFont(spec) ==> Restyle(a, spec).value.font == Restyle(b, spec).value.font
    ensures ReplacesFill(spec) ==> Restyle(a, spec).value.fill == Restyle(b, spec).value.fill
    ensures ReplacesBorder(spec) ==> Restyle(a, spec).value.border == Restyle(b, spec).value.border
  {
    var ra, rb := Restyle(a, spec).value, Restyle(b, spec).value;
    if ReplacesBorder(spec) {
      assert ra.border.Keys == rb.border.Keys;
    }
  }

  /** Formatting a font twice: the second call's font is built from the second
      request only, so e.g. an italic flag from the first call does not survive.
      A first call that raises leaves the style as it was. */
  lemma SecondFontWins(st: Style, first: FormatSpec, second: FormatSpec)
    requires ReplacesFont(second) && !Raises(second)
    ensures var mid := Restyle(st, first).GetOr(st);
      && Restyle(mid, second).value.font == FontOf(second.font.value)
      && (!second.font.value.italic.Given? ==> Restyle(mid, second).value.font.italic.None?)
  {
  }

  /** Applying the same request again changes nothing more. */
  lemma RestyleIdempotent(st: Style, spec: FormatSpec)
    ensures Restyle(st, spec).Some? ==> Restyle(Restyle(st, spec).value, spec) == Restyle(st, spec)
  {
    if !Raises(spec) {
      var once := Restyle(st, spec).value;
      ReplacedIgnoresOld(st, once, spec);
    }
  }

  /** A request with nothing usable (no category, a font with no keys, a fill whose
      type is not 'pattern', an empty border) leaves the style as it was, unless a
      null in it makes the code raise. */
  lemma NothingUsableKeepsStyle(st: Style, spec: FormatSpec)
    requires !ReplacesFont(spec) && !ReplacesFill(spec) && !ReplacesBorder(spec)
    ensures Restyle(st, spec) == if Raises(spec) then None else Some(st)
  {
  }

  // ---------------------------------------------------------------------------
  // Keys given as null

  /** `{"font": {"bold": null}}`: the key is present, so the whole font is replaced
      by a bare one, whatever it was before. */
  lemma NullBoldResetsFont(st: Style)
    ensures Restyle(st, FormatSpec(Given(FontSpec(Null, Missing, Missing, Missing)), Missing, Missing))
         == Some(st.(font := Font(None, None, None, None, None)))
  {
  }

  /** `{"fill": {"type": "pattern", "pattern": null}}`: a fill without a pattern. */
  lemma NullPatternIsNoPattern(st: Style)
    ensures Restyle(st, FormatSpec(Missing, Given(FillSpec(Given("pattern"), Null, Missing)), Missing))
         == Some(st.(fill := Fill(None, "FFFFFF")))
  {
  }

  /** A category given as null, or a side given as null, makes the request raise. */
  lemma NullCategoryRaises(st: Style, side: SideName)
    ensures Restyle(st, FormatSpec(Null, Missing, Missing)).None?
    ensures Restyle(st, FormatSpec(Missing, Null, Missing)).None?
    ensures Restyle(st, FormatSpec(Missing, Missing, Null)).None?
    ensures Restyle(st, FormatSpec(Missing, Missing, Given(map[side := Option<SideSpec>.None]))).None?
  {
    var sides := map[side := Option<SideSpec>.None];
    assert sides[side].None?;
  }
}
