/** The per-event helpers shared by the three figure scripts
    (`calculate_sm_range`, `calculate_n_days`): each results row stores the
    event's soil-moisture array as the text numpy printed for it; the
    helpers re-parse that text and derive the observed range and the
    number of entries. */
module EventArray {
  import opened Missing
  import opened PyText

  /** The text every line break and every space-preceded `nan` becomes. */
  const Placeholder: string := "np.nan"

  /** The text rewriting done before splitting: line breaks and
      space-preceded `nan` become ` np.nan`, then brackets at both ends are
      stripped. */
  function Normalise(text: string): string {
    Strip(Replace(Replace(text, "\n", " " + Placeholder), " nan", " " + Placeholder), "[]")
  }

  /** One list-comprehension element: `float(value) if value != "np.nan"
      else np.nan`. `convert` is `float()` on every other token (`None`:
      it raised ValueError); `float("nan")` is NaN. */
  function ParseToken(tok: string, convert: string -> Option<real>): Outcome<Num> {
    if tok == Placeholder || tok == "nan" then Ok(None)
    else match convert(tok)
      case Some(v) => Ok(Some(v))
      case None => Err(InvalidNumber(tok))
  }

  predicate IsMissingToken(tok: string) {
    tok == Placeholder || tok == "nan"
  }

  /** The array built from the tokens: one entry per token, missing exactly
      for the two NaN spellings; the first token `float()` rejects stops
      the script. */
  function ParseTokens(tokens: seq<string>, convert: string -> Option<real>): (r: Outcome<seq<Num>>)
    ensures r.Ok? <==> forall k :: 0 <= k < |tokens| ==> IsMissingToken(tokens[k]) || convert(tokens[k]).Some?
    ensures r.Ok? ==> |r.value| == |tokens|
    ensures r.Ok? ==> forall k :: 0 <= k < |tokens| ==>
      if IsMissingToken(tokens[k]) then r.value[k].None? else r.value[k] == convert(tokens[k])
    ensures r.Err? ==> exists k :: (0 <= k < |tokens|
      && !IsMissingToken(tokens[k]) && convert(tokens[k]).None?
      && (forall j :: 0 <= j < k ==> IsMissingToken(tokens[j]) || convert(tokens[j]).Some?)
      && r.failure == InvalidNumber(tokens[k]))
    decreases |tokens|
  {
    if |tokens| == 0 then Ok([])
    else match ParseToken(tokens[0], convert)
      case Err(e) => Err(e)
      case Ok(v) =>
        match ParseTokens(tokens[1..], convert)
        case Err(e) => Err(e)
        case Ok(vs) => Ok([v] + vs)
  }

  /** The parsed soil-moisture array of one results row. */
  function ParseSm(text: string, convert: string -> Option<real>): (r: Outcome<seq<Num>>)
    ensures r.Ok? ==> |r.value| == |Split(Normalise(text))|
  {
    ParseTokens(Split(Normalise(text)), convert)
  }

  /** `calculate_n_days`: the length of the parsed array, missing entries
      included. */
  function NDays(text: string, convert: string -> Option<real>): (r: Outcome<nat>)
    ensures r.Ok? <==> ParseSm(text, convert).Ok?
    ensures r.Ok? ==> r.value == |Split(Normalise(text))|
  {
    match ParseSm(text, convert)
    case Ok(sm) => Ok(|sm|)
    case Err(e) => Err(e)
  }

  /** `np.nanmax`: the largest non-missing entry, missing if there is none. */
  function NanMax(sm: seq<Num>): (r: Num)
    ensures r.None? <==> forall k :: 0 <= k < |sm| ==> sm[k].None?
    ensures r.Some? ==> forall k :: 0 <= k < |sm| && sm[k].Some? ==> sm[k].value <= r.value
    ensures r.Some? ==> exists k :: 0 <= k < |sm| && sm[k] == r
    decreases |sm|
  {
    if |sm| == 0 then None
    else
      var rest := NanMax(sm[1..]);
      assert forall k :: 1 <= k < |sm| ==> sm[k] == sm[1..][k - 1];
      if sm[0].None? then rest
      else if rest.None? || sm[0].value >= rest.value then sm[0]
      else rest
  }

  /** `np.nanmin`: the smallest non-missing entry, missing if there is none. */
  function NanMin(sm: seq<Num>): (r: Num)
    ensures r.None? <==> forall k :: 0 <= k < |sm| ==> sm[k].None?
    ensures r.Some? ==> forall k :: 0 <= k < |sm| && sm[k].Some? ==> r.value <= sm[k].value
    ensures r.Some? ==> exists k :: 0 <= k < |sm| && sm[k] == r
    decreases |sm|
  {
    if |sm| == 0 then None
    else
      var rest := NanMin(sm[1..]);
      assert forall k :: 1 <= k < |sm| ==> sm[k] == sm[1..][k - 1];
      if sm[0].None? then rest
      else if rest.None? || sm[0].value <= rest.value then sm[0]
      else rest
  }

  predicate HasValue(sm: seq<Num>) {
    exists k :: 0 <= k < |sm| && sm[k].Some?
  }

  /** The range test and division of `calculate_sm_range`, on the parsed
      array: NaN when `max_sm == min_sm`; otherwise the observed range
      (NaN-ignoring) over `max_sm - min_sm`, where numpy refuses a
      zero-size array and an all-NaN array or a NaN bound gives NaN. */
  function SmRange(sm: seq<Num>, maxSm: Num, minSm: Num): (r: Outcome<Num>)
    ensures r.Err? <==> NotEqual(maxSm, minSm) && |sm| == 0
    ensures maxSm.Some? && minSm.Some? && maxSm.value == minSm.value ==> r == Ok(None)
    ensures r.Ok? && r.value.Some? <==>
      maxSm.Some? && minSm.Some? && maxSm.value != minSm.value && HasValue(sm)
  {
    if !NotEqual(maxSm, minSm) then Ok(None)
    else if |sm| == 0 then Err(EmptyReduction)
    else Ok(Div(Sub(NanMax(sm), NanMin(sm)), Sub(maxSm, minSm)))
  }

  /** `calculate_sm_range` on one row: the text is parsed first (a token
      `float()` rejects stops the script even when the bounds are equal),
      then the range is taken. */
  function CalculateSmRange(text: string, maxSm: Num, minSm: Num, convert: string -> Option<real>): (r: Outcome<Num>)
    ensures r.Ok? <==> ParseSm(text, convert).Ok? && SmRange(ParseSm(text, convert).value, maxSm, minSm).Ok?
    ensures r.Ok? ==> r == SmRange(ParseSm(text, convert).value, maxSm, minSm)
  {
    match ParseSm(text, convert)
    case Err(e) => Err(e)
    case Ok(sm) => SmRange(sm, maxSm, minSm)
  }

  /** `sm[hi]` and `sm[lo]` are the largest and the smallest observation. */
  predicate Extremes(sm: seq<Num>, hi: int, lo: int) {
    && 0 <= hi < |sm| && 0 <= lo < |sm| && sm[hi].Some? && sm[lo].Some?
    && forall k :: 0 <= k < |sm| && sm[k].Some? ==> sm[lo].value <= sm[k].value <= sm[hi].value
  }

  /** A defined range is the spread between the largest and the smallest
      observation, divided by `max_sm - min_sm`. */
  lemma SmRangeSpread(sm: seq<Num>, maxSm: real, minSm: real)
    requires SmRange(sm, Some(maxSm), Some(minSm)).Ok?
    requires SmRange(sm, Some(maxSm), Some(minSm)).value.Some?
    ensures exists hi, lo :: (Extremes(sm, hi, lo)
      && SmRange(sm, Some(maxSm), Some(minSm)).value == Div(Sub(sm[hi], sm[lo]), Some(maxSm - minSm)))
  {
    var hi, lo := NanMax(sm), NanMin(sm);
    var i :| 0 <= i < |sm| && sm[i] == hi;
    var j :| 0 <= j < |sm| && sm[j] == lo;
    assert Extremes(sm, i, j);
  }

  /** With `min_sm < max_sm` a defined range is never negative, whatever
      the observations: the largest present entry is at least the smallest. */
  lemma SmRangeNonNegative(sm: seq<Num>, maxSm: real, minSm: real)
    requires maxSm > minSm
    ensures SmRange(sm, Some(maxSm), Some(minSm)).Ok? && SmRange(sm, Some(maxSm), Some(minSm)).value.Some?
      ==> SmRange(sm, Some(maxSm), Some(minSm)).value.value >= 0.0
  {
    var r := SmRange(sm, Some(maxSm), Some(minSm));
    if r.Ok? && r.value.Some? {
      var hi, lo := NanMax(sm), NanMin(sm);
      assert r.value == Div(Sub(hi, lo), Some(maxSm - minSm));
      var j :| 0 <= j < |sm| && sm[j] == lo;
      assert lo.value <= hi.value;
      NonNegativeQuotient(hi.value - lo.value, maxSm - minSm);
    }
  }

  lemma NonNegativeQuotient(d: real, w: real)
    requires w > 0.0 && d >= 0.0
    ensures Div(Some(d), Some(w)).Some? && Div(Some(d), Some(w)).value >= 0.0
  {
    var v := Div(Some(d), Some(w)).value;
    assert v * w == d;
  }

  /** With `min_sm < max_sm` and every observation between the two bounds
      (the bounds the fit used), a defined range is a fraction in [0, 1]. */
  lemma SmRangeFraction(sm: seq<Num>, maxSm: real, minSm: real)
    requires maxSm > minSm
    requires forall k :: 0 <= k < |sm| && sm[k].Some? ==> minSm <= sm[k].value <= maxSm
    ensures SmRange(sm, Some(maxSm), Some(minSm)).Ok? && SmRange(sm, Some(maxSm), Some(minSm)).value.Some?
      ==> 0.0 <= SmRange(sm, Some(maxSm), Some(minSm)).value.value <= 1.0
  {
    var r := SmRange(sm, Some(maxSm), Some(minSm));
    if r.Ok? && r.value.Some? {
      var hi, lo := NanMax(sm), NanMin(sm);
      assert r.value == Div(Sub(hi, lo), Some(maxSm - minSm));
      var i :| 0 <= i < |sm| && sm[i] == hi;
      var j :| 0 <= j < |sm| && sm[j] == lo;
      assert Extremes(sm, i, j);
      SpreadWithin(sm, i, j, maxSm, minSm);
      Fraction(hi.value - lo.value, maxSm - minSm);
    }
  }

  /** Observations between the bounds spread no wider than the bounds. */
  lemma SpreadWithin(sm: seq<Num>, hi: int, lo: int, maxSm: real, minSm: real)
    requires Extremes(sm, hi, lo)
    requires forall k :: 0 <= k < |sm| && sm[k].Some? ==> minSm <= sm[k].value <= maxSm
    ensures 0.0 <= sm[hi].value - sm[lo].value <= maxSm - minSm
  {
    assert minSm <= sm[lo].value && sm[hi].value <= maxSm;
    assert sm[lo].value <= sm[hi].value;
  }

  lemma Fraction(d: real, w: real)
    requires w > 0.0 && 0.0 <= d <= w
    ensures Div(Some(d), Some(w)).Some? && 0.0 <= Div(Some(d), Some(w)).value <= 1.0
  {
    var v := Div(Some(d), Some(w)).value;
    assert v * w == d;
  }

  // ---------------------------------------------------------------------
  // The text numpy prints for an array, and what the parser makes of it.
  // ---------------------------------------------------------------------

  /** One printed entry: a numeral such as `0.215` or `-1e-3`, or `nan`. */
  datatype Cell = Numeral(text: string) | NanCell

  /** What precedes an entry: an optional line break (numpy wraps long
      arrays), then `spaces` blanks of separator and padding. */
  datatype Gap = Gap(lineBreak: bool, spaces: nat)

  datatype Entry = Entry(gap: Gap, cell: Cell)

  predicate NumeralChar(c: char) {
    ('0' <= c <= '9') || c == '.' || c == '-' || c == '+' || c == 'e' || c == 'E'
  }

  function Spaces(n: nat): (s: string)
    ensures |s| == n && forall i :: 0 <= i < n ==> s[i] == ' '
  {
    seq(n, _ => ' ')
  }

  function CellText(c: Cell): string {
    match c
    case Numeral(t) => t
    case NanCell => "nan"
  }

  function EntryText(e: Entry): string {
    var tail := Spaces(e.gap.spaces) + CellText(e.cell);
    if e.gap.lineBreak then "\n" + tail else tail
  }

  function BodyText(entries: seq<Entry>): string
    decreases |entries|
  {
    if |entries| == 0 then "" else EntryText(entries[0]) + BodyText(entries[1..])
  }

  /** The printed array: the entries between brackets. */
  function Printed(entries: seq<Entry>): string {
    "[" + BodyText(entries) + "]"
  }

  /** How numpy lays entries out: every entry after the first is separated
      by at least one blank (a wrapped line starts with one), and numerals
      are non-empty runs of numeral characters that `float()` accepts. */
  predicate EntryOk(e: Entry, first: bool, convert: string -> Option<real>) {
    && (e.gap.lineBreak || !first ==> e.gap.spaces >= 1)
    && match e.cell
       case Numeral(t) => |t| > 0 && (forall i :: 0 <= i < |t| ==> NumeralChar(t[i])) && convert(t).Some?
       case NanCell => true
  }

  predicate WellPrinted(entries: seq<Entry>, first: bool, convert: string -> Option<real>) {
    forall k :: 0 <= k < |entries| ==> EntryOk(entries[k], first && k == 0, convert)
  }

  function CellValue(c: Cell, convert: string -> Option<real>): Num {
    match c
    case Numeral(t) => convert(t)
    case NanCell => None
  }

  /** What the scripts read back: each entry's value, and before it one
      extra missing entry for every line break. */
  function ReadBack(entries: seq<Entry>, convert: string -> Option<real>): seq<Num>
    decreases |entries|
  {
    if |entries| == 0 then []
    else
      var tail := [CellValue(entries[0].cell, convert)] + ReadBack(entries[1..], convert);
      if entries[0].gap.lineBreak then [None] + tail else tail
  }

  function LineBreaks(entries: seq<Entry>): nat
    decreases |entries|
  {
    if |entries| == 0 then 0
    else (if entries[0].gap.lineBreak then 1 else 0) + LineBreaks(entries[1..])
  }

  /** The round trip: parsing a printed array gives back its entries, with
      one extra missing entry for every line break. */
  lemma ParsePrinted(entries: seq<Entry>, convert: string -> Option<real>)
    requires WellPrinted(entries, true, convert)
    ensures ParseSm(Printed(entries), convert) == Ok(ReadBack(entries, convert))
  {
    NormalisePrinted(entries, convert);
    SplitBody(entries, true, convert);
    ParseTokensRead(entries, true, convert);
  }

  /** `n_days` of a printed array counts its entries plus its line breaks. */
  lemma {:induction false} NDaysPrinted(entries: seq<Entry>, convert: string -> Option<real>)
    requires WellPrinted(entries, true, convert)
    ensures NDays(Printed(entries), convert) == Ok(|entries| + LineBreaks(entries))
  {
    ParsePrinted(entries, convert);
    ReadBackLength(entries, convert);
  }

  lemma {:induction false} ReadBackLength(entries: seq<Entry>, convert: string -> Option<real>)
    ensures |ReadBack(entries, convert)| == |entries| + LineBreaks(entries)
    decreases |entries|
  {
    if |entries| > 0 {
      ReadBackLength(entries[1..], convert);
    }
  }

  // The stages of the rewriting, entry by entry.

  /** An entry after line breaks became ` np.nan`. */
  function EntryText1(e: Entry): string {
    var tail := Spaces(e.gap.spaces) + CellText(e.cell);
    if e.gap.lineBreak then " " + Placeholder + tail else tail
  }

  function Body1(entries: seq<Entry>): string
    decreases |entries|
  {
    if |entries| == 0 then "" else EntryText1(entries[0]) + Body1(entries[1..])
  }

  /** The token an entry's cell becomes once space-preceded `nan` became
      `np.nan`. */
  function CellToken(e: Entry): string {
    match e.cell
    case Numeral(t) => t
    case NanCell => if e.gap.spaces > 0 then Placeholder else "nan"
  }

  /** An entry after both replacements. */
  function EntryText2(e: Entry): string {
    var tail := Spaces(e.gap.spaces) + CellToken(e);
    if e.gap.lineBreak then " " + Placeholder + tail else tail
  }

  function Body2(entries: seq<Entry>): string
    decreases |entries|
  {
    if |entries| == 0 then "" else EntryText2(entries[0]) + Body2(entries[1..])
  }

  function EntryTokens(e: Entry): seq<string> {
    if e.gap.lineBreak then [Placeholder, CellToken(e)] else [CellToken(e)]
  }

  function Tokens(entries: seq<Entry>): seq<string>
    decreases |entries|
  {
    if |entries| == 0 then [] else EntryTokens(entries[0]) + Tokens(entries[1..])
  }

  predicate NoChar(s: string, c: char) {
    forall i :: 0 <= i < |s| ==> s[i] != c
  }

  lemma AbsentChar(s: string, pat: string, k: nat)
    requires k < |pat| && NoChar(s, pat[k])
    ensures Absent(s, pat)
  {
    forall i: nat
      ensures !OccursAt(s, pat, i)
    {
      if i + |pat| <= |s| {
        assert s[i..i + |pat|][k] == s[i + k];
      }
    }
  }

  lemma CellTextChars(e: Entry, first: bool, convert: string -> Option<real>)
    requires EntryOk(e, first, convert)
    ensures NoChar(CellText(e.cell), '\n') && NoChar(CellText(e.cell), ' ')
    ensures e.cell.Numeral? ==> NoChar(CellText(e.cell), 'n')
  {
  }

  /** The first entry is laid out as a first entry, the rest as later ones. */
  lemma WellPrintedRest(entries: seq<Entry>, first: bool, convert: string -> Option<real>)
    requires |entries| > 0 && WellPrinted(entries, first, convert)
    ensures EntryOk(entries[0], first, convert)
    ensures WellPrinted(entries[1..], false, convert)
  {
    assert EntryOk(entries[0], first && 0 == 0, convert);
    forall k | 0 <= k < |entries[1..]|
      ensures EntryOk(entries[1..][k], false, convert)
    {
      assert EntryOk(entries[k + 1], first && k + 1 == 0, convert);
    }
  }

  /** First replacement on a single entry. */
  lemma ReplaceBreakEntry(e: Entry, first: bool, convert: string -> Option<real>)
    requires EntryOk(e, first, convert)
    ensures Replace(EntryText(e), "\n", " " + Placeholder) == EntryText1(e)
  {
    var pat, rep := "\n", " " + Placeholder;
    CellTextChars(e, first, convert);
    var tail := Spaces(e.gap.spaces) + CellText(e.cell);
    assert NoChar(tail, '\n');
    AbsentChar(tail, pat, 0);
    ReplaceAbsent(tail, pat, rep);
    if e.gap.lineBreak {
      ReplaceAppend(pat, tail, pat, rep);
      assert Replace(pat, pat, rep) == rep + Replace("", pat, rep);
    }
  }

  /** First replacement, one entry at a time. */
  lemma {:induction false} ReplaceBreaks(entries: seq<Entry>, first: bool, convert: string -> Option<real>)
    requires WellPrinted(entries, first, convert)
    ensures Replace(BodyText(entries), "\n", " " + Placeholder) == Body1(entries)
    decreases |entries|
  {
    if |entries| > 0 {
      WellPrintedRest(entries, first, convert);
      ReplaceBreakEntry(entries[0], first, convert);
      ReplaceBreaks(entries[1..], false, convert);
      ReplaceAppend(EntryText(entries[0]), BodyText(entries[1..]), "\n", " " + Placeholder);
    }
  }

  /** Body1 of the entries after the first begins with a blank. */
  lemma Body1Start(entries: seq<Entry>, convert: string -> Option<real>)
    requires |entries| > 0 && WellPrinted(entries, false, convert)
    ensures |Body1(entries)| > 0 && Body1(entries)[0] == ' '
    ensures |Body2(entries)| > 0 && Body2(entries)[0] == ' '
  {
    assert EntryOk(entries[0], false, convert);
  }

  /** The placeholder holds no space-preceded `nan`, and none can start in
      it and run past its end. */
  lemma PlaceholderClean(b: string)
    ensures Replace(" " + Placeholder + b, " nan", " " + Placeholder)
      == " " + Placeholder + Replace(b, " nan", " " + Placeholder)
  {
    var lead, pat := " " + Placeholder, " nan";
    PlaceholderNoNan();
    ReplaceAbsent(lead, pat, " " + Placeholder);
    NoStraddleAfter(lead, b, pat);
    ReplaceAppend(lead, b, pat, " " + Placeholder);
  }

  /** ` np.nan` holds no ` nan`. */
  lemma PlaceholderNoNan()
    ensures Absent(" " + Placeholder, " nan")
  {
    var lead, pat := " " + Placeholder, " nan";
    forall i: nat
      ensures !OccursAt(lead, pat, i)
    {
      if i + 4 <= 7 {
        if i == 0 {
          assert lead[i..i + 4][2] == 'p';
        } else {
          assert lead[i..i + 4][0] != ' ';
        }
      }
    }
  }

  /** Second replacement on the blanks and the cell of one entry. */
  lemma ReplaceNanCell(e: Entry, first: bool, convert: string -> Option<real>)
    requires EntryOk(e, first, convert)
    ensures Replace(Spaces(e.gap.spaces) + CellText(e.cell), " nan", " " + Placeholder)
      == Spaces(e.gap.spaces) + CellToken(e)
  {
    match e.cell {
      case Numeral(t) =>
        ReplaceNumeralCell(e, first, convert);
      case NanCell =>
        if e.gap.spaces == 0 {
          assert Spaces(e.gap.spaces) + CellText(e.cell) == "nan";
        } else {
          ReplacePaddedNan(e.gap.spaces);
        }
    }
  }

  lemma ReplaceNumeralCell(e: Entry, first: bool, convert: string -> Option<real>)
    requires EntryOk(e, first, convert) && e.cell.Numeral?
    ensures Replace(Spaces(e.gap.spaces) + CellText(e.cell), " nan", " " + Placeholder)
      == Spaces(e.gap.spaces) + CellToken(e)
  {
    var tail := Spaces(e.gap.spaces) + CellText(e.cell);
    CellTextChars(e, first, convert);
    assert NoChar(tail, 'n');
    AbsentChar(tail, " nan", 1);
    ReplaceAbsent(tail, " nan", " " + Placeholder);
  }

  /** Blanks then `nan`: the last blank and the `nan` become the placeholder. */
  lemma ReplacePaddedNan(n: nat)
    requires n > 0
    ensures Replace(Spaces(n) + "nan", " nan", " " + Placeholder) == Spaces(n) + Placeholder
  {
    var pat, rep := " nan", " " + Placeholder;
    var pad := Spaces(n - 1);
    assert Spaces(n) + "nan" == pad + pat;
    assert NoChar(pad, 'n');
    AbsentChar(pad, pat, 1);
    ReplaceAbsent(pad, pat, rep);
    NoStraddleBefore(pad, pat, pat);
    ReplaceAppend(pad, pat, pat, rep);
    assert Replace(pat, pat, rep) == rep + Replace("", pat, rep);
    assert pad + rep == Spaces(n) + Placeholder;
  }

  /** Second replacement on a single entry. */
  lemma ReplaceNanEntry(e: Entry, first: bool, convert: string -> Option<real>)
    requires EntryOk(e, first, convert)
    ensures Replace(EntryText1(e), " nan", " " + Placeholder) == EntryText2(e)
  {
    var pat, rep := " nan", " " + Placeholder;
    var tail := Spaces(e.gap.spaces) + CellText(e.cell);
    ReplaceNanCell(e, first, convert);
    if e.gap.lineBreak {
      PlaceholderClean(tail);
    }
  }

  /** Second replacement, one entry at a time. */
  lemma {:induction false} ReplaceNans(entries: seq<Entry>, first: bool, convert: string -> Option<real>)
    requires WellPrinted(entries, first, convert)
    ensures Replace(Body1(entries), " nan", " " + Placeholder) == Body2(entries)
    decreases |entries|
  {
    if |entries| > 0 {
      var pat, rep := " nan", " " + Placeholder;
      assert EntryOk(entries[0], first, convert);
      ReplaceNanEntry(entries[0], first, convert);
      WellPrintedRest(entries, first, convert);
      ReplaceNans(entries[1..], false, convert);
      if |entries[1..]| > 0 {
        Body1Start(entries[1..], convert);
        NoStraddleBefore(EntryText1(entries[0]), Body1(entries[1..]), pat);
      }
      ReplaceAppend(EntryText1(entries[0]), Body1(entries[1..]), pat, rep);
    }
  }

  predicate NoBracket(s: string) {
    forall i :: 0 <= i < |s| ==> s[i] != '[' && s[i] != ']'
  }

  lemma {:induction false} Body2NoBracket(entries: seq<Entry>, first: bool, convert: string -> Option<real>)
    requires WellPrinted(entries, first, convert)
    ensures NoBracket(Body2(entries))
    decreases |entries|
  {
    if |entries| > 0 {
      assert EntryOk(entries[0], first, convert);
      EntryNoBracket(entries[0], first, convert);
      WellPrintedRest(entries, first, convert);
      Body2NoBracket(entries[1..], false, convert);
      NoBracketAppend(EntryText2(entries[0]), Body2(entries[1..]));
    }
  }

  lemma EntryNoBracket(e: Entry, first: bool, convert: string -> Option<real>)
    requires EntryOk(e, first, convert)
    ensures NoBracket(EntryText2(e))
  {
  }

  lemma NoBracketAppend(a: string, b: string)
    requires NoBracket(a) && NoBracket(b)
    ensures NoBracket(a + b)
  {
  }

  /** Replacing inside brackets replaces inside them only, for a pattern
      without brackets. */
  lemma ReplaceWrapped(b: string, pat: string, rep: string)
    requires |pat| > 0 && forall k :: 0 <= k < |pat| ==> pat[k] != '[' && pat[k] != ']'
    ensures Replace("[" + b + "]", pat, rep) == "[" + Replace(b, pat, rep) + "]"
  {
    NoStraddleAfter("[", b + "]", pat);
    ReplaceAppend("[", b + "]", pat, rep);
    NoStraddleBefore(b, "]", pat);
    ReplaceAppend(b, "]", pat, rep);
    AbsentChar("[", pat, 0);
    ReplaceAbsent("[", pat, rep);
    AbsentChar("]", pat, 0);
    ReplaceAbsent("]", pat, rep);
    assert "[" + b + "]" == "[" + (b + "]");
  }

  /** The whole rewriting of a printed array yields Body2. */
  lemma NormalisePrinted(entries: seq<Entry>, convert: string -> Option<real>)
    requires WellPrinted(entries, true, convert)
    ensures Normalise(Printed(entries)) == Body2(entries)
  {
    NormaliseBreaks(entries, convert);
    NormaliseNans(entries, convert);
    NormaliseStrip(entries, convert);
  }

  lemma NormaliseBreaks(entries: seq<Entry>, convert: string -> Option<real>)
    requires WellPrinted(entries, true, convert)
    ensures Replace(Printed(entries), "\n", " " + Placeholder) == "[" + Body1(entries) + "]"
  {
    ReplaceBreaks(entries, true, convert);
    ReplaceWrapped(BodyText(entries), "\n", " " + Placeholder);
  }

  lemma NormaliseNans(entries: seq<Entry>, convert: string -> Option<real>)
    requires WellPrinted(entries, true, convert)
    ensures Replace("[" + Body1(entries) + "]", " nan", " " + Placeholder) == "[" + Body2(entries) + "]"
  {
    ReplaceNans(entries, true, convert);
    ReplaceWrapped(Body1(entries), " nan", " " + Placeholder);
  }

  lemma NormaliseStrip(entries: seq<Entry>, convert: string -> Option<real>)
    requires WellPrinted(entries, true, convert)
    ensures Strip("[" + Body2(entries) + "]", "[]") == Body2(entries)
  {
    Body2NoBracket(entries, true, convert);
    StripWrapped('[', Body2(entries), ']', "[]");
  }

  /** Blanks, then a word, then text that starts with a blank. */
  lemma SplitPadded(pad: string, tok: string, rest: string)
    requires AllSpace(pad) && |tok| > 0 && NoSpace(tok)
    requires rest == [] || IsSpace(rest[0])
    ensures Split(pad + tok + rest) == [tok] + Split(rest)
  {
    SplitWord(tok, rest);
    SplitAfterSpaces(pad, tok + rest);
    Assoc(pad, tok, rest);
  }

  /** A cell's token is a non-empty word. */
  lemma CellTokenWord(e: Entry, first: bool, convert: string -> Option<real>)
    requires EntryOk(e, first, convert)
    ensures |CellToken(e)| > 0 && NoSpace(CellToken(e))
  {
    var tok := CellToken(e);
    forall i | 0 <= i < |tok|
      ensures !IsSpace(tok[i])
    {
      if e.cell.Numeral? {
        assert NumeralChar(tok[i]);
      }
    }
  }

  /** Splitting one entry followed by text that starts with a blank. */
  lemma SplitEntry(e: Entry, first: bool, convert: string -> Option<real>, rest: string)
    requires EntryOk(e, first, convert)
    requires rest == [] || IsSpace(rest[0])
    ensures Split(EntryText2(e) + rest) == EntryTokens(e) + Split(rest)
  {
    CellTokenWord(e, first, convert);
    var tok, pad := CellToken(e), Spaces(e.gap.spaces);
    if e.gap.lineBreak {
      PlaceholderWord();
      SplitTwoWords(" ", Placeholder, pad, tok, rest);
    } else {
      SplitPadded(pad, tok, rest);
    }
  }

  /** Two padded words, then text that starts with a blank. */
  lemma SplitTwoWords(pad1: string, w1: string, pad2: string, w2: string, rest: string)
    requires AllSpace(pad1) && |w1| > 0 && NoSpace(w1)
    requires |pad2| > 0 && AllSpace(pad2) && |w2| > 0 && NoSpace(w2)
    requires rest == [] || IsSpace(rest[0])
    ensures Split(pad1 + w1 + (pad2 + w2) + rest) == [w1, w2] + Split(rest)
  {
    var after := pad2 + w2 + rest;
    assert after[0] == pad2[0];
    assert pad1 + w1 + (pad2 + w2) + rest == pad1 + w1 + after;
    SplitPadded(pad1, w1, after);
    SplitPadded(pad2, w2, rest);
    ConsTwo(w1, w2, Split(rest));
  }

  lemma ConsTwo<T>(a: T, b: T, s: seq<T>)
    ensures [a] + ([b] + s) == [a, b] + s
  {
  }

  lemma PlaceholderWord()
    ensures |Placeholder| > 0 && NoSpace(Placeholder) && AllSpace(" ")
  {
  }

  /** Splitting Body2 yields the tokens, entry by entry. */
  lemma {:induction false} SplitBody(entries: seq<Entry>, first: bool, convert: string -> Option<real>)
    requires WellPrinted(entries, first, convert)
    ensures Split(Body2(entries)) == Tokens(entries)
    decreases |entries|
  {
    if |entries| > 0 {
      WellPrintedRest(entries, first, convert);
      SplitBody(entries[1..], false, convert);
      if |entries[1..]| > 0 {
        Body1Start(entries[1..], convert);
      }
      SplitEntry(entries[0], first, convert, Body2(entries[1..]));
    }
  }

  /** Parsing a token list one token at a time. */
  lemma ParseTokensCons(t: string, rest: seq<string>, convert: string -> Option<real>)
    requires ParseToken(t, convert).Ok? && ParseTokens(rest, convert).Ok?
    ensures ParseTokens([t] + rest, convert)
      == Ok([ParseToken(t, convert).value] + ParseTokens(rest, convert).value)
  {
    assert ([t] + rest)[0] == t;
    assert ([t] + rest)[1..] == rest;
  }

  /** A cell's token parses to the cell's value. */
  lemma ParseCellToken(e: Entry, first: bool, convert: string -> Option<real>)
    requires EntryOk(e, first, convert)
    ensures ParseToken(CellToken(e), convert) == Ok(CellValue(e.cell, convert))
  {
    if e.cell.Numeral? {
      assert CellToken(e)[0] != 'n';
    }
  }

  /** Parsing the tokens of one entry in front of parsed tokens. */
  lemma ParseEntryTokens(e: Entry, first: bool, convert: string -> Option<real>, rest: seq<string>)
    requires EntryOk(e, first, convert) && ParseTokens(rest, convert).Ok?
    ensures ParseTokens(EntryTokens(e) + rest, convert) ==
      var tail := [CellValue(e.cell, convert)] + ParseTokens(rest, convert).value;
      Ok(if e.gap.lineBreak then [None] + tail else tail)
  {
    ParseCellToken(e, first, convert);
    var tok := CellToken(e);
    ParseTokensCons(tok, rest, convert);
    if e.gap.lineBreak {
      ConsTwo(Placeholder, tok, rest);
      ParseTokensCons(Placeholder, [tok] + rest, convert);
    }
  }

  /** Parsing the tokens gives the read-back values. */
  lemma {:induction false} ParseTokensRead(entries: seq<Entry>, first: bool, convert: string -> Option<real>)
    requires WellPrinted(entries, first, convert)
    ensures ParseTokens(Tokens(entries), convert) == Ok(ReadBack(entries, convert))
    decreases |entries|
  {
    if |entries| > 0 {
      WellPrintedRest(entries, first, convert);
      ParseTokensRead(entries[1..], false, convert);
      ParseEntryTokens(entries[0], first, convert, Tokens(entries[1..]));
    }
  }
}
