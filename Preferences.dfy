/**
 * The rules inside the preference screen's listeners: font-family list
 * normalisation, the integer option's clamp and slider mapping, the colour
 * opacity rewrite, and the guards that write a setting only when it changes.
 * The views themselves are reduced to the state the listeners read and write:
 * an input box's text, a slider's position and the setting behind the option.
 */
module Preferences {
  import opened Options
  import opened Numerals
  import opened JavaStrings

  // ---------------------------------------------------------------------------
  // Font families

  /** The family a line names: the line stripped of white space, unless it is blank. */
  function FamilyOf(line: string): (f: Option<string>)
    ensures f.Some? <==> !IsBlank(line)
    ensures f.Some? ==> f.value == Strip(line)
  {
    if IsBlank(line) then None
    else
      var stripped := Strip(line);
      if stripped != "" then Some(stripped) else None
  }

  /** A named family is non-empty and already stripped; a stripped name names itself. */
  lemma FamilyOfStripped(line: string)
    ensures FamilyOf(line).Some? ==>
      FamilyOf(line).value != "" && Strip(FamilyOf(line).value) == FamilyOf(line).value
    ensures line != "" && Strip(line) == line ==> FamilyOf(line) == Some(line)
  {
    StripIdempotent(line);
  }

  /**
   * The list built from `lines` in order: each line's family is appended unless it
   * is already listed.
   */
  function Collect(lines: seq<string>, family: string -> Option<string>): (r: seq<string>)
    ensures |r| <= |lines|
    decreases |lines|
  {
    if lines == [] then []
    else
      var r := Collect(lines[..|lines| - 1], family);
      match family(lines[|lines| - 1])
      case Some(x) => if x !in r then r + [x] else r
      case None => r
  }

  /** The list the font-family focus listener builds from the box's lines. */
  function Normalized(lines: seq<string>): (r: seq<string>)
    ensures |r| <= |lines|
  {
    Collect(lines, FamilyOf)
  }

  /** Every entry is non-empty and already stripped. */
  predicate AllStripped(r: seq<string>)
  {
    forall i :: 0 <= i < |r| ==> r[i] != "" && Strip(r[i]) == r[i]
  }

  predicate Distinct(r: seq<string>)
  {
    forall i, j :: 0 <= i < j < |r| ==> r[i] != r[j]
  }

  /** Some line of `lines` names family `x`. */
  predicate ContributedBy(lines: seq<string>, family: string -> Option<string>, x: string)
  {
    exists k :: 0 <= k < |lines| && family(lines[k]) == Some(x)
  }

  /** An earlier entry is named by some line before any line naming a later one. */
  predicate InFirstOccurrenceOrder(r: seq<string>, lines: seq<string>, family: string -> Option<string>)
  {
    forall i, j, k :: 0 <= i < j < |r| && 0 <= k < |lines| && family(lines[k]) == Some(r[j]) ==>
      exists k' :: 0 <= k' < k && family(lines[k']) == Some(r[i])
  }

  lemma ContributedBySnoc(lines: seq<string>, family: string -> Option<string>, x: string)
    requires lines != []
    ensures ContributedBy(lines, family, x) <==>
      ContributedBy(lines[..|lines| - 1], family, x) || family(lines[|lines| - 1]) == Some(x)
  {
    var init := lines[..|lines| - 1];
    if ContributedBy(init, family, x) {
      var k :| 0 <= k < |init| && family(init[k]) == Some(x);
      assert lines[k] == init[k];
    }
    if ContributedBy(lines, family, x) {
      var k :| 0 <= k < |lines| && family(lines[k]) == Some(x);
      if k < |init| {
        assert init[k] == lines[k];
      }
    }
  }

  /** A family is listed exactly when some line names it. */
  lemma {:induction false} CollectMembership(lines: seq<string>, family: string -> Option<string>, x: string)
    ensures x in Collect(lines, family) <==> ContributedBy(lines, family, x)
    decreases |lines|
  {
    if lines != [] {
      CollectMembership(lines[..|lines| - 1], family, x);
      ContributedBySnoc(lines, family, x);
    }
  }

  /** No family is listed twice. */
  lemma {:induction false} CollectDistinct(lines: seq<string>, family: string -> Option<string>)
    ensures Distinct(Collect(lines, family))
    decreases |lines|
  {
    if lines != [] {
      CollectDistinct(lines[..|lines| - 1], family);
    }
  }

  /** Families are listed in the order in which lines first name them. */
  lemma {:induction false} CollectOrder(lines: seq<string>, family: string -> Option<string>)
    ensures InFirstOccurrenceOrder(Collect(lines, family), lines, family)
    decreases |lines|
  {
    if lines != [] {
      var init := lines[..|lines| - 1];
      var r0 := Collect(init, family);
      var r := Collect(lines, family);
      CollectOrder(init, family);
      assert r == r0 || (family(lines[|lines| - 1]).Some? && r == r0 + [family(lines[|lines| - 1]).value]);
      forall i, j, k | 0 <= i < j < |r| && 0 <= k < |lines| && family(lines[k]) == Some(r[j])
        ensures exists k' :: 0 <= k' < k && family(lines[k']) == Some(r[i])
      {
        if k < |init| {
          assert init[k] == lines[k];
          CollectMembership(init, family, r[j]);
          if j >= |r0| {
            assert false;
          }
          assert r[j] == r0[j] && r[i] == r0[i];
          var k' :| 0 <= k' < k && family(init[k']) == Some(r0[i]);
          assert lines[k'] == init[k'];
        } else {
          assert r[i] == r0[i];
          CollectMembership(init, family, r0[i]);
          var k' :| 0 <= k' < |init| && family(init[k']) == Some(r0[i]);
          assert lines[k'] == init[k'];
        }
      }
    }
  }

  /** The first line's family, when it names one, leads the list. */
  lemma {:induction false} CollectFirst(lines: seq<string>, family: string -> Option<string>)
    requires lines != [] && family(lines[0]).Some?
    ensures Collect(lines, family) != [] && Collect(lines, family)[0] == family(lines[0]).value
    decreases |lines|
  {
    if |lines| > 1 {
      var init := lines[..|lines| - 1];
      assert init[0] == lines[0];
      CollectFirst(init, family);
    }
  }

  /** A duplicate-free list whose every entry names itself is collected unchanged. */
  lemma {:induction false} CollectFixpoint(r: seq<string>, family: string -> Option<string>)
    requires Distinct(r) && forall i :: 0 <= i < |r| ==> family(r[i]) == Some(r[i])
    ensures Collect(r, family) == r
    decreases |r|
  {
    if r != [] {
      var init := r[..|r| - 1];
      CollectFixpoint(init, family);
      assert r[|r| - 1] !in init;
    }
  }

  /** The normalised list has no blank or unstripped entries and no duplicates. */
  lemma NormalizedWellFormed(lines: seq<string>)
    ensures AllStripped(Normalized(lines)) && Distinct(Normalized(lines))
  {
    var r := Normalized(lines);
    CollectDistinct(lines, FamilyOf);
    forall i | 0 <= i < |r| ensures r[i] != "" && Strip(r[i]) == r[i] {
      CollectMembership(lines, FamilyOf, r[i]);
      var k :| 0 <= k < |lines| && FamilyOf(lines[k]) == Some(r[i]);
      FamilyOfStripped(lines[k]);
    }
  }

  /** An already normalised list normalises to itself. */
  lemma NormalizedFixpoint(r: seq<string>)
    requires AllStripped(r) && Distinct(r)
    ensures Normalized(r) == r
  {
    forall i | 0 <= i < |r| ensures FamilyOf(r[i]) == Some(r[i]) {
      FamilyOfStripped(r[i]);
    }
    CollectFixpoint(r, FamilyOf);
  }

  lemma {:induction false} SplitNoSep(a: string, sep: char)
    requires sep !in a
    ensures Split(a, sep) == [a]
    decreases |a|
  {
    if a != [] {
      SplitNoSep(a[1..], sep);
      assert a == [a[0]] + a[1..];
    }
  }

  lemma {:induction false} SplitAtSep(a: string, b: string, sep: char)
    requires sep !in a
    ensures Split(a + [sep] + b, sep) == [a] + Split(b, sep)
    decreases |a|
  {
    if a == [] {
      assert ([] + [sep] + b)[1..] == b;
    } else {
      assert (a + [sep] + b)[1..] == a[1..] + [sep] + b;
      SplitAtSep(a[1..], b, sep);
      assert a == [a[0]] + a[1..];
    }
  }

  /** Splitting the joined parts gives the parts back when none holds the separator. */
  lemma {:induction false} SplitJoin(parts: seq<string>, sep: char)
    requires |parts| >= 1 && forall i :: 0 <= i < |parts| ==> sep !in parts[i]
    ensures Split(Join(parts, sep), sep) == parts
    decreases |parts|
  {
    if |parts| == 1 {
      SplitNoSep(parts[0], sep);
    } else {
      SplitJoin(parts[1..], sep);
      SplitAtSep(parts[0], Join(parts[1..], sep), sep);
    }
  }

  /** No family holds a line break when no line does. */
  lemma NormalizedSingleLines(lines: seq<string>)
    requires forall k :: 0 <= k < |lines| ==> '\n' !in lines[k]
    ensures forall i :: 0 <= i < |Normalized(lines)| ==> '\n' !in Normalized(lines)[i]
  {
    var r := Normalized(lines);
    forall i | 0 <= i < |r| ensures '\n' !in r[i] {
      CollectMembership(lines, FamilyOf, r[i]);
      var k :| 0 <= k < |lines| && FamilyOf(lines[k]) == Some(r[i]);
      StripChars(lines[k]);
    }
  }

  lemma StripChars(s: string)
    ensures forall c :: c in Strip(s) ==> c in s
  {
    var t := TrimStart(s);
    assert t == s[|s| - |t|..];
    assert Strip(s) == t[..|Strip(s)|];
  }

  /** Splitting the joined list at line breaks gives it back when no entry is empty or holds one. */
  lemma SplitJavaJoin(r: seq<string>)
    requires |r| >= 1
    requires forall i :: 0 <= i < |r| ==> r[i] != "" && '\n' !in r[i]
    ensures SplitJava(Join(r, '\n'), '\n') == r
  {
    var joined := Join(r, '\n');
    if |r| > 1 {
      SplitJoin(r, '\n');
      assert joined[|r[0]|] == '\n';
      assert DropTrailingEmpty(r) == r;
    }
  }

  /**
   * The text written back into the box normalises to the same list, so leaving the
   * box a second time without editing it does not write the setting again.
   */
  lemma NormalizeStable(text: string)
    ensures var r := Normalized(SplitJava(text, '\n'));
            Normalized(SplitJava(Join(r, '\n'), '\n')) == r
  {
    var lines := SplitJava(text, '\n');
    var r := Normalized(lines);
    assert AllStripped(r) && Distinct(r) by {
      NormalizedWellFormed(lines);
    }
    if r == [] {
      assert SplitJava(Join(r, '\n'), '\n') == [""];
      assert FamilyOf("") == None;
      assert [""][..0] == [];
    } else {
      assert forall i :: 0 <= i < |r| ==> '\n' !in r[i] by {
        NormalizedSingleLines(lines);
      }
      SplitJavaJoin(r);
      NormalizedFixpoint(r);
    }
  }

  /** One more line extends the list as the focus listener's loop body does. */
  lemma NormalizedStep(lines: seq<string>, k: nat)
    requires k < |lines|
    ensures var r := Normalized(lines[..k]);
      Normalized(lines[..k + 1]) ==
        if !IsBlank(lines[k]) && Strip(lines[k]) != "" && Strip(lines[k]) !in r
        then r + [Strip(lines[k])] else r
  {
    assert lines[..k + 1][..k] == lines[..k];
  }

  /** Everything the focus listener promises about its list, stated of Normalized. */
  lemma NormalizedProperties(lines: seq<string>)
    ensures AllStripped(Normalized(lines)) && Distinct(Normalized(lines))
    ensures forall x :: x in Normalized(lines) <==> ContributedBy(lines, FamilyOf, x)
    ensures InFirstOccurrenceOrder(Normalized(lines), lines, FamilyOf)
  {
    NormalizedWellFormed(lines);
    CollectOrder(lines, FamilyOf);
    forall x ensures x in Normalized(lines) <==> ContributedBy(lines, FamilyOf, x) {
      CollectMembership(lines, FamilyOf, x);
    }
  }

  /**
   * The font-family focus listener's list: split the box's text at line breaks and
   * keep each non-blank line, stripped, unless it is already listed.
   */
  method NormalizeFontFamilies(text: string) returns (result: seq<string>)
    ensures result == Normalized(SplitJava(text, '\n'))
    ensures AllStripped(result) && Distinct(result)
    ensures forall x :: x in result <==> ContributedBy(SplitJava(text, '\n'), FamilyOf, x)
    ensures InFirstOccurrenceOrder(result, SplitJava(text, '\n'), FamilyOf)
  {
    var lines := SplitJava(text, '\n');
    result := [];
    for k := 0 to |lines|
      invariant result == Normalized(lines[..k])
    {
      NormalizedStep(lines, k);
      var s := lines[k];
      if !IsBlank(s) {
        var stripped := Strip(s);
        if stripped != "" && stripped !in result {
          result := result + [stripped];
        }
      }
    }
    assert lines[..|lines|] == lines;
    NormalizedProperties(lines);
  }

  /** The font-family option: its setting, its input box and the save count. */
  class FontFamilyOption {
    var families: seq<string>
    var text: string
    var saves: nat

    constructor (families: seq<string>)
      ensures this.families == families && text == Join(families, '\n') && saves == 0
    {
      this.families := families;
      text := Join(families, '\n');
      saves := 0;
    }

    /**
     * Focus lost: the box shows the normalised list, and the setting is written
     * and saved only when that list differs from the stored one.
     */
    method OnFocusLost() returns (written: bool)
      modifies this
      ensures var r := Normalized(SplitJava(old(text), '\n'));
        && families == r
        && text == Join(r, '\n')
        && written == (old(families) != r)
        && saves == old(saves) + (if written then 1 else 0)
    {
      var result := NormalizeFontFamilies(text);
      text := Join(result, '\n');
      written := families != result;
      if written {
        families := result;
        saves := saves + 1;
      }
    }
  }

  // ---------------------------------------------------------------------------
  // Integer option

  /** MathUtil.clamp: `n` brought into [lo, hi]. */
  function Clamp(n: int, lo: int, hi: int): (r: int)
    requires lo <= hi
    ensures lo <= r <= hi
    ensures lo <= n <= hi ==> r == n
    ensures n < lo ==> r == lo
    ensures n > hi ==> r == hi
  {
    if n < lo then lo else if n > hi then hi else n
  }

  /** Java's int division for a positive divisor: truncates towards zero. */
  function JavaDiv(a: int, b: int): (q: int)
    requires b > 0
    ensures a >= 0 ==> 0 <= q && q * b <= a < q * b + b
    ensures a < 0 ==> q <= 0 && q * b - b < a <= q * b
  {
    if a >= 0 then a / b else -((-a) / b)
  }

  /** The slider's maximum: how many whole steps fit between min and max. */
  function Steps(minValue: int, maxValue: int, stepSize: int): (steps: nat)
    requires minValue <= maxValue && stepSize > 0
    ensures steps * stepSize <= maxValue - minValue < (steps + 1) * stepSize
  {
    (maxValue - minValue) / stepSize
  }

  /** The value a slider position stands for: whole steps above the minimum. */
  function ProgressToValue(progress: int, minValue: int, stepSize: int): (v: int)
    ensures stepSize > 0 && progress >= 0 ==> v >= minValue
    ensures stepSize > 0 && progress < 0 ==> v < minValue
  {
    progress * stepSize + minValue
  }

  /** The slider position for a value: the whole steps it lies above the minimum. */
  function ValueToProgress(value: int, minValue: int, stepSize: int): (p: int)
    requires stepSize > 0
    ensures value >= minValue ==> p >= 0 && p * stepSize <= value - minValue < p * stepSize + stepSize
  {
    JavaDiv(value - minValue, stepSize)
  }

  lemma MulMono(b: nat, x: nat, y: nat)
    requires x <= y
    ensures b * x <= b * y
  {
    assert b * y == b * x + b * (y - x);
  }

  lemma MulDivCancel(p: nat, step: nat)
    requires step > 0
    ensures (p * step) / step == p
  {
    var q, r := (p * step) / step, (p * step) % step;
    assert p * step == q * step + r;
    if q < p {
      MulMono(step, q + 1, p);
    } else if q > p {
      MulMono(step, p + 1, q);
    }
  }

  /** Every slider position stands for a value within [min, max]. */
  lemma ProgressValueInRange(minValue: int, maxValue: int, stepSize: int, progress: int)
    requires minValue <= maxValue && stepSize > 0
    requires 0 <= progress <= Steps(minValue, maxValue, stepSize)
    ensures minValue <= ProgressToValue(progress, minValue, stepSize) <= maxValue
  {
    MulMono(stepSize, progress, Steps(minValue, maxValue, stepSize));
  }

  /** A slider position survives the trip to a value and back. */
  lemma ProgressRoundTrip(minValue: int, stepSize: int, progress: nat)
    requires stepSize > 0
    ensures ValueToProgress(ProgressToValue(progress, minValue, stepSize), minValue, stepSize) == progress
  {
    MulDivCancel(progress, stepSize);
  }

  /**
   * A value in [min, max] maps to a slider position in [0, steps] that stands for
   * the largest grid value not above it.
   */
  lemma ValueToProgressSnaps(minValue: int, maxValue: int, stepSize: int, value: int)
    requires minValue <= value <= maxValue && stepSize > 0
    ensures var p := ValueToProgress(value, minValue, stepSize);
      && 0 <= p <= Steps(minValue, maxValue, stepSize)
      && ProgressToValue(p, minValue, stepSize) <= value < ProgressToValue(p, minValue, stepSize) + stepSize
  {
    var p := ValueToProgress(value, minValue, stepSize);
    var steps := Steps(minValue, maxValue, stepSize);
    assert value - minValue == p * stepSize + (value - minValue) % stepSize;
  }

  /** An integer option: its bounds, its setting, its input box and its slider. */
  class IntegerOption {
    const minValue: int
    const maxValue: int
    const stepSize: int
    /** The setting behind the option's getter and setter. */
    var value: int
    var text: string
    /** The slider's position, within [0, steps]. */
    var progress: int
    var saves: nat

    ghost predicate Valid()
      reads this
    {
      && minValue <= maxValue && stepSize > 0
      && 0 <= progress <= Steps(minValue, maxValue, stepSize)
    }

    /** The box shows the current value; the slider sits at its position, kept in range. */
    constructor (minValue: int, maxValue: int, stepSize: int, current: int)
      requires minValue <= maxValue && stepSize > 0
      ensures Valid()
      ensures this.minValue == minValue && this.maxValue == maxValue && this.stepSize == stepSize
      ensures value == current && text == IntToString(current) && saves == 0
      ensures progress == Clamp(ValueToProgress(current, minValue, stepSize), 0, Steps(minValue, maxValue, stepSize))
    {
      this.minValue, this.maxValue, this.stepSize := minValue, maxValue, stepSize;
      value := current;
      text := IntToString(current);
      progress := Clamp(ValueToProgress(current, minValue, stepSize), 0, Steps(minValue, maxValue, stepSize));
      saves := 0;
    }

    /**
     * Focus lost: the typed number, clamped into [min, max], is shown; it is stored,
     * the slider moved and the setting saved only when it differs from the current
     * value. Text that is not a number throws, changing nothing.
     */
    method OnFocusLost() returns (parsed: bool)
      requires Valid()
      modifies this`value, this`text, this`progress, this`saves
      ensures Valid()
      ensures parsed == ParseInt(old(text)).Some?
      ensures !parsed ==>
        value == old(value) && text == old(text) && progress == old(progress) && saves == old(saves)
      ensures parsed ==>
        var v := Clamp(ParseInt(old(text)).value, minValue, maxValue);
        && text == IntToString(v)
        && value == v
        && (v != old(value) ==> progress == ValueToProgress(v, minValue, stepSize) && saves == old(saves) + 1)
        && (v == old(value) ==> progress == old(progress) && saves == old(saves))
    {
      var n := ParseInt(text);
      if n.None? {
        return false;
      }
      parsed := true;
      var newValue := Clamp(n.value, minValue, maxValue);
      text := IntToString(newValue);
      if newValue != value {
        value := newValue;
        var curProgress := (newValue - minValue) / stepSize;
        ValueToProgressSnaps(minValue, maxValue, stepSize, newValue);
        progress := curProgress;
        saves := saves + 1;
      }
    }

    /** The slider moved: the box shows the value of the new position. */
    method OnProgressChanged(p: int)
      requires Valid() && 0 <= p <= Steps(minValue, maxValue, stepSize)
      modifies this`progress, this`text
      ensures Valid()
      ensures progress == p && text == IntToString(ProgressToValue(p, minValue, stepSize))
    {
      progress := p;
      text := IntToString(p * stepSize + minValue);
    }

    /**
     * The slider was released: its value, always within [min, max], is stored, shown
     * and saved only when it differs from the current value.
     */
    method OnStopTrackingTouch() returns (written: bool)
      requires Valid()
      modifies this`value, this`text, this`saves
      ensures Valid()
      ensures var v := ProgressToValue(progress, minValue, stepSize);
        && minValue <= v <= maxValue
        && value == v
        && written == (v != old(value))
        && text == (if written then IntToString(v) else old(text))
        && saves == old(saves) + (if written then 1 else 0)
    {
      var newValue := progress * stepSize + minValue;
      ProgressValueInRange(minValue, maxValue, stepSize, progress);
      written := newValue != value;
      if written {
        value := newValue;
        text := IntToString(newValue);
        saves := saves + 1;
      }
    }
  }

  // ---------------------------------------------------------------------------
  // Spinner option

  /** An enum option shown as a spinner over `values`. */
  /** The first position of `x` in `values`: an enum constant's ordinal in `E.values()`. */
  function IndexOf<E(==)>(values: seq<E>, x: E): (i: nat)
    requires x in values
    ensures i < |values| && values[i] == x
    ensures forall j :: 0 <= j < i ==> values[j] != x
  {
    if values[0] == x then 0 else 1 + IndexOf(values[1..], x)
  }

  /** The spinner option: the enum constants in ordinal order, the shown item and the setting. */
  class SpinnerOption<E(==)> {
    const values: seq<E>
    /** The spinner's selected position. */
    var selection: nat
    var value: E
    var saves: nat

    /** The spinner shows the stored setting. */
    ghost predicate Valid()
      reads this
    {
      selection < |values| && values[selection] == value
    }

    /** The spinner starts on the ordinal of the current setting. */
    constructor (values: seq<E>, current: E)
      requires current in values
      ensures Valid()
      ensures this.values == values && value == current && saves == 0
      ensures selection == IndexOf(values, current)
    {
      this.values := values;
      value := current;
      selection := IndexOf(values, current);
      saves := 0;
    }

    /**
     * An item was picked: the spinner shows it, and the setting is written and
     * saved only if it changes.
     */
    method OnItemSelected(position: int) returns (written: bool)
      requires 0 <= position < |values|
      modifies this`selection, this`value, this`saves
      ensures Valid()
      ensures selection == position && value == values[position]
      ensures written == (old(value) != values[position])
      ensures saves == old(saves) + (if written then 1 else 0)
    {
      selection := position;
      var newValue := values[position];
      written := value != newValue;
      if written {
        value := newValue;
        saves := saves + 1;
      }
    }
  }

  // ---------------------------------------------------------------------------
  // Colour opacity option

  /** One alpha unit: 1 << 24. */
  const ALPHA_UNIT: int := 0x100_0000
  const UINT_RANGE: int := 0x1_0000_0000
  /** The colour the list is seeded with when it is empty. */
  const DEFAULT_COLOR: string := "#FF000000"

  /** The alpha byte for an opacity in [0, 1]: `(int) (d * 255.0 + 0.5)`, rounding to nearest. */
  function AlphaByte(d: real): (v: int)
    requires 0.0 <= d <= 1.0
    ensures 0 <= v <= 255
    ensures v as real - 0.5 <= d * 255.0 < v as real + 0.5
  {
    (d * 255.0 + 0.5).Floor
  }

  /**
   * `color & 0xFFFFFF | v << 24` read as an unsigned 32-bit number: the low 24 bits
   * of `color` (two's complement) under the alpha byte `v`.
   */
  function WithAlpha(color: int, v: int): (r: nat)
    requires 0 <= v <= 255
    ensures r < UINT_RANGE
    ensures r % ALPHA_UNIT == color % ALPHA_UNIT
    ensures r / ALPHA_UNIT == v
  {
    color % ALPHA_UNIT + v * ALPHA_UNIT
  }

  /**
   * The string the opacity setter stores for colour `color` with alpha byte `v`, as
   * written: Integer.toHexString upper-cased when `v` is not 0, otherwise the six
   * digits after the leading 1 of `0x1000000 | color`.
   */
  function FormatColorAsWritten(color: nat, v: int): (s: string)
    requires 0 <= v <= 255 && color / ALPHA_UNIT == v
    ensures |s| >= 2 && s[0] == '#' && AllDigitsOf(s[1..], 16)
  {
    if v != 0 then "#" + ToDigits(color, 16)
    else "#" + ToDigits(ALPHA_UNIT + color, 16)[1..]
  }

  /**
   * The string the opacity setter evidently means to store: "#AARRGGBB" when the
   * alpha byte is not 0, "#RRGGBB" when it is; either way the digits denote the
   * colour exactly.
   */
  function FormatColor(color: nat, v: int): (s: string)
    requires 0 <= v <= 255 && color / ALPHA_UNIT == v
    ensures |s| == (if v != 0 then 9 else 7)
    ensures s[0] == '#' && AllDigitsOf(s[1..], 16)
    ensures Value(s[1..], 16) == color
  {
    assert Pow(16, 6) == ALPHA_UNIT && Pow(16, 8) == UINT_RANGE;
    if v != 0 then
      HexValueOfPad(color, 8);
      assert ("#" + Pad(color, 16, 8))[1..] == Pad(color, 16, 8);
      "#" + Pad(color, 16, 8)
    else
      HexValueOfPad(color, 6);
      assert ("#" + Pad(color, 16, 6))[1..] == Pad(color, 16, 6);
      "#" + Pad(color, 16, 6)
  }

  /** As written and as intended agree whenever the alpha byte is 0 or at least 16. */
  lemma FormatColorAsWrittenAgrees(color: nat, v: int)
    requires 0 <= v <= 255 && color / ALPHA_UNIT == v && (v == 0 || v >= 16)
    ensures FormatColorAsWritten(color, v) == FormatColor(color, v)
  {
    assert Pow(16, 6) == ALPHA_UNIT && Pow(16, 7) == 16 * ALPHA_UNIT && Pow(16, 8) == UINT_RANGE;
    if v == 0 {
      var n := ALPHA_UNIT + color;
      HexToDigitsIsPad(n, 7);
      HexPadDropFirst(n, 6);
      assert HexZeros(ALPHA_UNIT, 6);
      HexPadIgnoresHigh(ALPHA_UNIT, color, 6);
    } else {
      HexToDigitsIsPad(color, 8);
    }
  }

  /**
   * For an alpha byte from 1 to 15 the stored string drops the leading zero: "#"
   * and seven digits, neither "#RRGGBB" nor "#AARRGGBB".
   */
  lemma FormatColorAsWrittenDropsZero(color: nat, v: int)
    requires 1 <= v <= 15 && color / ALPHA_UNIT == v
    ensures |FormatColorAsWritten(color, v)| == 8
    ensures |FormatColor(color, v)| == 9
  {
    assert Pow(16, 6) == ALPHA_UNIT && Pow(16, 7) == 16 * ALPHA_UNIT;
    HexToDigitsIsPad(color, 7);
  }

  /**
   * As written the stored digits still denote the colour; only their number varies
   * with the alpha byte: 6 for alpha 0, 7 for alpha 1 to 15 and 8 from 16 on.
   */
  lemma FormatColorAsWrittenValue(color: nat, v: int)
    requires 0 <= v <= 255 && color / ALPHA_UNIT == v
    ensures |FormatColorAsWritten(color, v)| == (if v == 0 then 7 else if v < 16 then 8 else 9)
    ensures Value(FormatColorAsWritten(color, v)[1..], 16) == color
  {
    if v == 0 || v >= 16 {
      FormatColorAsWrittenAgrees(color, v);
    } else {
      var s := FormatColorAsWritten(color, v);
      assert Pow(16, 6) == ALPHA_UNIT && Pow(16, 7) == 16 * ALPHA_UNIT;
      HexToDigitsIsPad(color, 7);
      HexValueOfPad(color, 7);
      assert s[1..] == Pad(color, 16, 7);
    }
  }

  lemma ThreeAlphaDigits()
    ensures ToDigits(0x300_0000, 16) == "3000000"
  {
    assert ToDigits(0x3, 16) == "3";
    assert ToDigits(0x30, 16) == "30";
    assert ToDigits(0x300, 16) == "300";
    assert ToDigits(0x3000, 16) == "3000";
    assert ToDigits(0x3_0000, 16) == "30000";
    assert ToDigits(0x30_0000, 16) == "300000";
  }

  lemma ThreeAlphaPadded()
    ensures Pad(0x300_0000, 16, 8) == "03000000"
  {
    assert Pad(0x0, 16, 1) == "0";
    assert Pad(0x3, 16, 2) == "03";
    assert Pad(0x30, 16, 3) == "030";
    assert Pad(0x300, 16, 4) == "0300";
    assert Pad(0x3000, 16, 5) == "03000";
    assert Pad(0x3_0000, 16, 6) == "030000";
    assert Pad(0x30_0000, 16, 7) == "0300000";
  }

  /** An opacity of 1% on black: "#3000000" as written, "#03000000" as intended. */
  lemma OnePercentOpacity()
    ensures AlphaByte(0.01) == 3
    ensures FormatColorAsWritten(WithAlpha(0, 3), 3) == "#3000000"
    ensures FormatColor(WithAlpha(0, 3), 3) == "#03000000"
  {
    assert WithAlpha(0, 3) == 0x300_0000;
    ThreeAlphaDigits();
    ThreeAlphaPadded();
  }

  /**
   * The string stored for a parsed colour once it takes the alpha byte `v`: the
   * format as written, or with `intended` the zero-padded one.
   */
  function Recolor(color: int, v: int, intended: bool): (s: string)
    requires 0 <= v <= 255
    ensures |s| >= 2 && s[0] == '#' && AllDigitsOf(s[1..], 16)
  {
    if intended then FormatColor(WithAlpha(color, v), v) else FormatColorAsWritten(WithAlpha(color, v), v)
  }

  /**
   * Either way the stored digits denote the colour with its RGB bits and the new
   * alpha, and the two formats agree unless the alpha byte is 1 to 15.
   */
  lemma RecolorDenotes(color: int, v: int, intended: bool)
    requires 0 <= v <= 255
    ensures var s := Recolor(color, v, intended);
      && s[0] == '#' && AllDigitsOf(s[1..], 16)
      && Value(s[1..], 16) % ALPHA_UNIT == color % ALPHA_UNIT
      && Value(s[1..], 16) / ALPHA_UNIT == v
    ensures (v == 0 || v >= 16) ==> Recolor(color, v, true) == Recolor(color, v, false)
  {
    var c := WithAlpha(color, v);
    if !intended {
      FormatColorAsWrittenValue(c, v);
    }
    if v == 0 || v >= 16 {
      FormatColorAsWrittenAgrees(c, v);
    }
  }

  /** The colour-opacity option: the configured list of colour strings. */
  class ColorOpacityOption {
    var colors: seq<string>

    constructor (colors: seq<string>)
      ensures this.colors == colors
    {
      this.colors := colors;
    }

    /**
     * The opacity setter: every colour of the list (seeded with "#FF000000" when
     * empty) keeps its RGB bits and takes the alpha byte of `d`, and is stored in the
     * format as written (`intended` false) or the zero-padded one (`intended` true).
     * A colour that does not parse throws and the setting is left as it was.
     */
    method SetOpacity(d: real, parse: string -> Option<int>, intended: bool) returns (ok: bool)
      requires 0.0 <= d <= 1.0
      modifies this`colors
      ensures var list := if old(colors) == [] then [DEFAULT_COLOR] else old(colors);
              var v := AlphaByte(d);
        && ok == (forall i :: 0 <= i < |list| ==> parse(list[i]).Some?)
        && (!ok ==> colors == old(colors))
        && (ok ==> |colors| == |list| &&
                   forall i :: 0 <= i < |list| ==>
                     colors[i] == Recolor(parse(list[i]).value, v, intended))
    {
      var v := AlphaByte(d);
      var list := colors;
      if list == [] {
        list := [DEFAULT_COLOR];
      }
      ghost var seeded := list;
      var i := 0;
      while i < |list|
        invariant 0 <= i <= |list| && |list| == |seeded|
        invariant forall j :: i <= j < |list| ==> list[j] == seeded[j]
        invariant forall j :: 0 <= j < i ==>
          parse(seeded[j]).Some? && list[j] == Recolor(parse(seeded[j]).value, v, intended)
      {
        var parsed := parse(list[i]);
        if parsed.None? {
          return false;
        }
        list := list[i := Recolor(parsed.value, v, intended)];
        i := i + 1;
      }
      colors := list;
      ok := true;
    }
  }
}
