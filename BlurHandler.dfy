/**
 * The screen-background transition controller: blur, fade-in colours and the
 * focus-dependent master volume, driven by screen changes, render ticks and
 * client ticks.
 *
 * Host queries (is a world loaded, is the window active or iconified, does the
 * blur post chain exist, what does a screen's callback answer, which class is a
 * supertype of which) are parameters. The configuration statics are read through
 * an immutable snapshot `Config` passed to each entry point.
 */
module Blur {
  import opened Options

  /** A class as the host's reflection sees it, named by its binary name. */
  type ClassRef = string

  /** The screen about to be shown. */
  datatype Screen =
      /** A Modern UI screen; `callback` is None when it has no callback, otherwise
          the callback's answer to "should the background be blurred". */
    | MuiScreen(callback: Option<bool>)
      /** Any other screen, with its runtime class. */
    | VanillaScreen(cls: ClassRef)

  /** A snapshot of the configuration statics. */
  datatype Config = Config(
    blurEffect: bool,
    blurRadius: int,
    backgroundDuration: int,    // milliseconds
    backgroundColor: seq<int>,  // four ARGB colours
    volumeInactive: real,
    volumeMinimized: real)
  {
    /** The configured colour array always has four slots. */
    predicate Valid() { |backgroundColor| == 4 }
  }

  /** A Java float as far as this model needs one: a real number or NaN. */
  datatype Float = Num(v: real) | NaN

  /** The outcome of resolving a blacklist entry by name (Class.forName). */
  datatype Resolution = Resolved(cls: ClassRef) | ClassNotFound

  // ---------------------------------------------------------------------------
  // Blocking rule

  /**
   * Whether blur is refused for the next screen: a Modern UI screen whose callback
   * says no, or another screen whose class is a subtype of some blacklist entry.
   * Only consulted when blur is enabled and a screen is present.
   * `isAssignableFrom(c, t)` holds when class `t` is `c` or a subtype of `c`.
   */
  predicate Blocked(next: Option<Screen>, blurEffect: bool, blacklist: seq<ClassRef>,
                    isAssignableFrom: (ClassRef, ClassRef) -> bool)
    ensures Blocked(next, blurEffect, blacklist, isAssignableFrom) ==> next.Some? && blurEffect
    ensures next.Some? && next.value.VanillaScreen? && blacklist == [] ==>
      !Blocked(next, blurEffect, blacklist, isAssignableFrom)
    ensures next.Some? && next.value.MuiScreen? && next.value.callback == Some(false) ==>
      Blocked(next, blurEffect, blacklist, isAssignableFrom) == blurEffect
  {
    && next.Some?
    && blurEffect
    && match next.value
       case MuiScreen(callback) => callback == Some(false)
       case VanillaScreen(t) => exists i :: 0 <= i < |blacklist| && isAssignableFrom(blacklist[i], t)
  }

  /** A Modern UI screen never consults the blacklist, and one without a callback
      is never blocked. */
  lemma MuiScreenIgnoresBlacklist(callback: Option<bool>, blurEffect: bool, blacklist: seq<ClassRef>,
                                  isAssignableFrom: (ClassRef, ClassRef) -> bool)
    ensures Blocked(Some(MuiScreen(callback)), blurEffect, blacklist, isAssignableFrom)
            == Blocked(Some(MuiScreen(callback)), blurEffect, [], isAssignableFrom)
    ensures callback.None? ==> !Blocked(Some(MuiScreen(callback)), blurEffect, blacklist, isAssignableFrom)
  {
  }

  // ---------------------------------------------------------------------------
  // Blacklist loading

  /** The entry contributed by one configured name: nothing for an empty name or a
      name that does not resolve to an admitted class. */
  function BlacklistEntry(name: string, resolve: string -> Resolution, admit: ClassRef -> bool): seq<ClassRef>
  {
    if name != "" && resolve(name).Resolved? && admit(resolve(name).cls) then [resolve(name).cls] else []
  }

  /** The entries of `names`, in input order, that resolve to an admitted class. */
  function FilterResolved(names: seq<string>, resolve: string -> Resolution, admit: ClassRef -> bool)
    : (r: seq<ClassRef>)
    ensures |r| <= |names|
  {
    if names == [] then []
    else FilterResolved(names[..|names| - 1], resolve, admit) + BlacklistEntry(names[|names| - 1], resolve, admit)
  }

  /** Filtering distributes over concatenation: entries keep the order of the input. */
  lemma {:induction false} FilterResolvedAppend(a: seq<string>, b: seq<string>, resolve: string -> Resolution,
                                                admit: ClassRef -> bool)
    ensures FilterResolved(a + b, resolve, admit) == FilterResolved(a, resolve, admit) + FilterResolved(b, resolve, admit)
    decreases |b|
  {
    if b == [] {
      assert a + b == a;
    } else {
      var b' := b[..|b| - 1];
      assert (a + b)[..|a + b| - 1] == a + b';
      assert (a + b)[|a + b| - 1] == b[|b| - 1];
      FilterResolvedAppend(a, b', resolve, admit);
    }
  }

  /** A class is in the filtered list exactly when some non-empty name resolves to it
      and it is admitted. */
  lemma {:induction false} FilterResolvedMembership(names: seq<string>, resolve: string -> Resolution,
                                                    admit: ClassRef -> bool, c: ClassRef)
    ensures c in FilterResolved(names, resolve, admit)
            <==> exists i :: 0 <= i < |names| && names[i] != "" && resolve(names[i]) == Resolved(c) && admit(c)
  {
    if names != [] {
      var init := names[..|names| - 1];
      FilterResolvedMembership(init, resolve, admit, c);
      if c in FilterResolved(init, resolve, admit) {
        var i :| 0 <= i < |init| && init[i] != "" && resolve(init[i]) == Resolved(c) && admit(c);
        assert names[i] == init[i];
      }
      if exists i :: 0 <= i < |names| && names[i] != "" && resolve(names[i]) == Resolved(c) && admit(c) {
        var i :| 0 <= i < |names| && names[i] != "" && resolve(names[i]) == Resolved(c) && admit(c);
        if i < |init| {
          assert init[i] == names[i];
        }
      }
    }
  }

  /** The blacklist as loadBlacklist builds it: every resolved class is kept. */
  function BlacklistAsWritten(names: seq<string>, resolve: string -> Resolution): (r: seq<ClassRef>)
    ensures forall c :: c in r <==> exists i :: 0 <= i < |names| && names[i] != "" && resolve(names[i]) == Resolved(c)
  {
    var r := FilterResolved(names, resolve, _ => true);
    forall c ensures c in r <==> exists i :: 0 <= i < |names| && names[i] != "" && resolve(names[i]) == Resolved(c) {
      FilterResolvedMembership(names, resolve, _ => true, c);
    }
    r
  }

  /** Admitting every class is the same as admitting by a filter that admits all. */
  lemma {:induction false} FilterResolvedAdmitsAll(names: seq<string>, resolve: string -> Resolution,
                                                   admit: ClassRef -> bool)
    requires forall c :: admit(c)
    ensures FilterResolved(names, resolve, admit) == BlacklistAsWritten(names, resolve)
    decreases |names|
  {
    if names != [] {
      FilterResolvedAdmitsAll(names[..|names| - 1], resolve, admit);
    }
  }

  /** The blacklist as loadBlacklist evidently intends it: only classes that are
      screens are kept. */
  function Blacklist(names: seq<string>, resolve: string -> Resolution, isScreen: ClassRef -> bool)
    : (r: seq<ClassRef>)
    ensures forall c :: c in r ==> isScreen(c)
    ensures forall c :: c in r <==>
      exists i :: 0 <= i < |names| && names[i] != "" && resolve(names[i]) == Resolved(c) && isScreen(c)
  {
    var r := FilterResolved(names, resolve, isScreen);
    forall c ensures c in r <==>
      exists i :: 0 <= i < |names| && names[i] != "" && resolve(names[i]) == Resolved(c) && isScreen(c) {
      FilterResolvedMembership(names, resolve, isScreen, c);
    }
    r
  }

  /**
   * The cast in loadBlacklist is unchecked, so a class that is not a screen is
   * kept as written; `java.lang.Object` then blocks every non-Modern-UI screen.
   * The corrected list drops it.
   */
  lemma BlacklistAdmitsNonScreen()
    ensures var names := ["java.lang.Object"];
            var resolve := (n: string) => Resolved(n);
            var isScreen := (c: ClassRef) => false;
            var isAssignableFrom := (c: ClassRef, t: ClassRef) => c == "java.lang.Object";
            && BlacklistAsWritten(names, resolve) == ["java.lang.Object"]
            && Blocked(Some(VanillaScreen("TitleScreen")), true, BlacklistAsWritten(names, resolve), isAssignableFrom)
            && Blacklist(names, resolve, isScreen) == []
            && !Blocked(Some(VanillaScreen("TitleScreen")), true, Blacklist(names, resolve, isScreen), isAssignableFrom)
  {
    var names := ["java.lang.Object"];
    var resolve := (n: string) => Resolved(n);
    assert names[..0] == [];
    assert BlacklistAsWritten(names, resolve)[0] == "java.lang.Object";
  }

  // ---------------------------------------------------------------------------
  // Fade-in arithmetic

  /**
   * The fade progress `Math.min((float) elapsed / duration, 1.0f)`. A zero
   * duration (possible when the configuration changes during a fade) gives
   * +Infinity, clamped to 1, or NaN when nothing has elapsed yet.
   */
  function FadeProgress(elapsed: int, duration: int): (p: Float)
    requires elapsed >= 0
    ensures p.NaN? <==> duration == 0 && elapsed == 0
    ensures p.Num? ==> p.v <= 1.0
    ensures duration > 0 ==> p.Num? && 0.0 <= p.v
    ensures p == Num(1.0) <==> (duration > 0 && elapsed >= duration) || (duration == 0 && elapsed > 0)
    ensures duration > 0 && elapsed < duration ==> p == Num(elapsed as real / duration as real)
  {
    if duration == 0 then
      if elapsed == 0 then NaN else Num(1.0)
    else
      var q := elapsed as real / duration as real;
      if q < 1.0 then Num(q) else Num(1.0)
  }

  /** With a positive duration the progress never decreases as time passes. */
  lemma FadeProgressMonotonic(e1: int, e2: int, duration: int)
    requires 0 <= e1 <= e2 && duration > 0
    ensures FadeProgress(e1, duration).v <= FadeProgress(e2, duration).v
  {
    assert e1 as real / duration as real <= e2 as real / duration as real;
  }

  /** The blur radius for progress `p`: `Math.max(p * sBlurRadius, 1.0f)`. */
  function TickRadius(p: Float, blurRadius: int): (r: Float)
    ensures r.NaN? <==> p.NaN?
    ensures r.Num? ==> r.v >= 1.0 && r.v >= p.v * blurRadius as real
    ensures r.Num? ==> r.v == 1.0 || r.v == p.v * blurRadius as real
  {
    match p
    case NaN => NaN
    case Num(q) => if q * blurRadius as real >= 1.0 then Num(q * blurRadius as real) else Num(1.0)
  }

  /** At the end of a fade the radius is the configured one, when that is at least 1. */
  lemma TickRadiusAtEnd(blurRadius: int)
    requires blurRadius >= 1
    ensures TickRadius(Num(1.0), blurRadius) == Num(blurRadius as real)
  {
  }

  // ---------------------------------------------------------------------------
  // Master volume

  /**
   * The volume multiplier aimed at: 1 while the window is active; when it is not,
   * the smaller of the two configured volumes if the window is iconified and the
   * inactive volume otherwise.
   */
  function TargetVolume(windowActive: bool, iconified: bool, cfg: Config): (target: real)
    ensures windowActive ==> target == 1.0
    ensures !windowActive && iconified ==>
              target == (if cfg.volumeMinimized < cfg.volumeInactive then cfg.volumeMinimized else cfg.volumeInactive)
    ensures !windowActive && !iconified ==> target == cfg.volumeInactive
    ensures !windowActive ==> target <= cfg.volumeInactive
  {
    if windowActive then 1.0
    else if cfg.volumeMinimized < cfg.volumeInactive && iconified then cfg.volumeMinimized
    else cfg.volumeInactive
  }

  /**
   * One client tick of the multiplier towards `target`: up by at most 0.5, down by
   * at most 0.05, never past the target.
   */
  function Approach(current: real, target: real): (next: real)
    ensures current < target ==> current < next <= target && next - current <= 0.5
    ensures current > target ==> target <= next < current && current - next <= 0.05
    ensures current == target ==> next == current
    ensures next == target || next == current + 0.5 || next == current - 0.05
  {
    if current == target then current
    else if current < target then (if current + 0.5 < target then current + 0.5 else target)
    else (if current - 0.05 > target then current - 0.05 else target)
  }

  /** `n` client ticks towards a fixed target. */
  function ApproachTimes(current: real, target: real, n: nat): real
    decreases n
  {
    if n == 0 then current else ApproachTimes(Approach(current, target), target, n - 1)
  }

  /** The multiplier reaches the target once the ticks cover the distance: 0.5 per
      tick going up, 0.05 per tick going down. */
  lemma {:induction false} ApproachReachesTarget(current: real, target: real, n: nat)
    requires current <= target ==> target - current <= 0.5 * n as real
    requires current >= target ==> current - target <= 0.05 * n as real
    ensures ApproachTimes(current, target, n) == target
    decreases n
  {
    if n > 0 {
      ApproachReachesTarget(Approach(current, target), target, n - 1);
    }
  }

  /** While the target is still out of reach, each falling tick removes exactly 0.05. */
  lemma {:induction false} ApproachFalling(current: real, target: real, n: nat)
    requires current - 0.05 * n as real > target
    ensures ApproachTimes(current, target, n) == current - 0.05 * n as real
    decreases n
  {
    if n > 0 {
      ApproachFalling(current - 0.05, target, n - 1);
    }
  }

  /** A full fade-out from 1 to 0 takes exactly twenty ticks; recovery takes two. */
  lemma FullSwingTicks()
    ensures ApproachTimes(1.0, 0.0, 20) == 0.0
    ensures ApproachTimes(1.0, 0.0, 19) == 0.05
    ensures ApproachTimes(0.0, 1.0, 2) == 1.0 && ApproachTimes(0.0, 1.0, 1) == 0.5
  {
    ApproachReachesTarget(1.0, 0.0, 20);
    ApproachFalling(1.0, 0.0, 19);
    ApproachReachesTarget(0.0, 1.0, 2);
  }

  // ---------------------------------------------------------------------------
  // Background quad

  /** Colour of an emitted vertex: four channels, or one packed ARGB int. */
  datatype Color = Rgba(r: int, g: int, b: int, a: int) | Argb(argb: int)

  datatype Vertex = Vertex(x: int, y: int, color: Color)

  datatype Corner = TopLeft | TopRight | BottomRight | BottomLeft

  /** The slot of the colour array that colours a corner: clockwise from top-left. */
  function CornerSlot(c: Corner): (slot: nat)
    ensures slot < 4
  {
    match c
    case TopLeft => 0
    case TopRight => 1
    case BottomRight => 2
    case BottomLeft => 3
  }

  /** The order in which the quad's corners are emitted. */
  const QuadOrder: seq<Corner> := [TopRight, TopLeft, BottomLeft, BottomRight]

  /** A corner of the rectangle (x1, y1)-(x2, y2), y growing downwards. */
  function CornerVertex(c: Corner, x1: int, y1: int, x2: int, y2: int, color: Color): Vertex
  {
    match c
    case TopLeft => Vertex(x1, y1, color)
    case TopRight => Vertex(x2, y1, color)
    case BottomRight => Vertex(x2, y2, color)
    case BottomLeft => Vertex(x1, y2, color)
  }

  /** The quad drawn before a world is loaded: one opaque dark colour. */
  function FallbackQuad(x1: int, y1: int, x2: int, y2: int): (quad: seq<Vertex>)
    ensures |quad| == 4
    ensures forall k :: 0 <= k < 4 ==> quad[k] == CornerVertex(QuadOrder[k], x1, y1, x2, y2, Rgba(30, 31, 34, 255))
  {
    var c := Rgba(30, 31, 34, 255);
    [Vertex(x2, y1, c), Vertex(x1, y1, c), Vertex(x1, y2, c), Vertex(x2, y2, c)]
  }

  /** The quad drawn over a world: each corner takes the colour of its own slot. */
  function BackgroundQuad(colors: seq<int>, x1: int, y1: int, x2: int, y2: int): (quad: seq<Vertex>)
    requires |colors| == 4
    ensures |quad| == 4
    ensures forall k :: 0 <= k < 4 ==>
      quad[k] == CornerVertex(QuadOrder[k], x1, y1, x2, y2, Argb(colors[CornerSlot(QuadOrder[k])]))
  {
    [Vertex(x2, y1, Argb(colors[1])), Vertex(x1, y1, Argb(colors[0])),
     Vertex(x1, y2, Argb(colors[3])), Vertex(x2, y2, Argb(colors[2]))]
  }

  // ---------------------------------------------------------------------------
  // Ambient blur

  /**
   * processBlurEffect: the host's menu blurriness scaled by 1.8 reaches the blur
   * shader only when the scaled radius is at least 1 and the post chain exists.
   */
  function ProcessBlurEffect(blurriness: int, postChainPresent: bool): (applied: Option<real>)
    ensures applied.Some? <==> blurriness >= 1 && postChainPresent
    ensures applied.Some? ==> applied.value >= 1.8
  {
    var radius := blurriness as real * 1.8;
    if radius >= 1.0 && postChainPresent then Some(radius) else None
  }

  // ---------------------------------------------------------------------------
  // The controller

  class BlurHandler {
    var blacklist: seq<ClassRef>
    /** The four corner colours, overwritten in place. */
    const backgroundColor: array<int>
    /** The fade-in animation is running. */
    var fadingIn: bool
    /** Blur is applied to the background. */
    var blurring: bool
    var blurRadius: Float
    /** A screen was open after the last screen change. */
    var hasScreen: bool
    var volumeMultiplier: real

    /**
     * Blur and fade only run while a screen is open; a running blur has a radius of
     * at least 1, except that a NaN radius can appear mid-fade (and only then).
     */
    ghost predicate Valid()
      reads this
    {
      && backgroundColor.Length == 4
      && (blurring ==> hasScreen)
      && (fadingIn ==> hasScreen)
      && (blurring && blurRadius.Num? ==> blurRadius.v >= 1.0)
      && (blurring && blurRadius.NaN? ==> fadingIn)
    }

    constructor ()
      ensures Valid() && fresh(backgroundColor)
      ensures !hasScreen && !blurring && !fadingIn && blurRadius == Num(0.0)
      ensures volumeMultiplier == 1.0 && blacklist == [] && backgroundColor[..] == [0, 0, 0, 0]
    {
      blacklist := [];
      backgroundColor := new int[4](_ => 0);
      fadingIn, blurring, hasScreen := false, false, false;
      blurRadius := Num(0.0);
      volumeMultiplier := 1.0;
    }

    /** Whether class `t` is a subtype of some blacklist entry; stops at the first match. */
    method InBlacklist(t: ClassRef, isAssignableFrom: (ClassRef, ClassRef) -> bool) returns (found: bool)
      ensures found <==> exists i :: 0 <= i < |blacklist| && isAssignableFrom(blacklist[i], t)
    {
      found := false;
      var k := 0;
      while k < |blacklist|
        invariant 0 <= k <= |blacklist|
        invariant forall i :: 0 <= i < k ==> !isAssignableFrom(blacklist[i], t)
      {
        if isAssignableFrom(blacklist[k], t) {
          found := true;
          break;
        }
        k := k + 1;
      }
    }

    /**
     * blur(nextScreen): called whenever the shown screen changes. Blur and fade
     * start only on the no-screen to screen edge; closing stops both; a blocked
     * screen stops the blur at once. Without a world nothing changes.
     */
    method Blur(next: Option<Screen>, world: bool, cfg: Config, isAssignableFrom: (ClassRef, ClassRef) -> bool)
      requires Valid() && cfg.Valid()
      modifies this`hasScreen, this`blurring, this`fadingIn, this`blurRadius, backgroundColor
      ensures Valid()
      ensures !world ==>
        && hasScreen == old(hasScreen) && blurring == old(blurring) && fadingIn == old(fadingIn)
        && blurRadius == old(blurRadius) && backgroundColor[..] == old(backgroundColor[..])
      ensures world ==> hasScreen == next.Some?
      ensures world && next.None? ==>
        && !blurring && !fadingIn
        && blurRadius == old(blurRadius) && backgroundColor[..] == old(backgroundColor[..])
      ensures world && Blocked(next, cfg.blurEffect, blacklist, isAssignableFrom) ==> !blurring
      ensures world && next.Some? && old(hasScreen) ==>
        && blurring == (old(blurring) && !Blocked(next, cfg.blurEffect, blacklist, isAssignableFrom))
        && fadingIn == old(fadingIn)
        && blurRadius == old(blurRadius) && backgroundColor[..] == old(backgroundColor[..])
      ensures world && next.Some? && !old(hasScreen) ==>
        && blurring == (!Blocked(next, cfg.blurEffect, blacklist, isAssignableFrom)
                        && cfg.blurEffect && cfg.blurRadius >= 1)
        && blurRadius == (if !blurring then old(blurRadius)
                          else if cfg.backgroundDuration > 0 then Num(1.0)
                          else Num(cfg.blurRadius as real))
        && fadingIn == (cfg.backgroundDuration > 0)
        && backgroundColor[..] == (if cfg.backgroundDuration > 0 then [0, 0, 0, 0] else cfg.backgroundColor)
    {
      if !world {
        return;
      }
      var present := next.Some?;

      var blocked := false;
      if present && cfg.blurEffect {
        match next.value {
          case MuiScreen(callback) =>
            if callback.Some? {
              blocked := !callback.value;
            }
          case VanillaScreen(t) =>
            blocked := InBlacklist(t, isAssignableFrom);
        }
      }

      if blocked && blurring {
        blurring := false;
      }

      if present && !hasScreen {
        if !blocked && cfg.blurEffect && !blurring && cfg.blurRadius >= 1 {
          blurring := true;
          if cfg.backgroundDuration > 0 {
            blurRadius := Num(1.0);
          } else {
            blurRadius := Num(cfg.blurRadius as real);
          }
        }
        if cfg.backgroundDuration > 0 {
          fadingIn := true;
          forall i | 0 <= i < 4 {
            backgroundColor[i] := 0;
          }
        } else {
          fadingIn := false;
          forall i | 0 <= i < 4 {
            backgroundColor[i] := cfg.backgroundColor[i];
          }
        }
      } else if !present {
        if blurring {
          blurring := false;
        }
        fadingIn := false;
      }
      hasScreen := present;
    }

    /**
     * loadBlacklist: replaces the blacklist wholesale with the classes named by
     * `names`, skipping empty names, names that do not resolve and the classes
     * `isScreen` rejects. A null list gives an empty blacklist. The code as written
     * is the case of an `isScreen` that admits every class; the evident intent is
     * the screen test.
     */
    method LoadBlacklist(names: Option<seq<string>>, resolve: string -> Resolution, isScreen: ClassRef -> bool)
      modifies this`blacklist
      ensures names.None? ==> blacklist == []
      ensures names.Some? ==> blacklist == Blacklist(names.value, resolve, isScreen)
      ensures names.Some? && (forall c :: isScreen(c)) ==> blacklist == BlacklistAsWritten(names.value, resolve)
    {
      var list: seq<ClassRef> := [];
      if names.Some? {
        var k := 0;
        while k < |names.value|
          invariant 0 <= k <= |names.value|
          invariant list == FilterResolved(names.value[..k], resolve, isScreen)
        {
          var s := names.value[k];
          assert names.value[..k + 1][..k] == names.value[..k];
          if s != "" {
            match resolve(s) {
              case Resolved(c) =>
                if isScreen(c) {
                  list := list + [c];
                }
              case ClassNotFound =>
            }
          }
          k := k + 1;
        }
        assert names.value[..k] == names.value;
        assert (forall c :: isScreen(c)) ==> list == BlacklistAsWritten(names.value, resolve) by {
          if forall c :: isScreen(c) {
            FilterResolvedAdmitsAll(names.value, resolve, isScreen);
          }
        }
      }
      blacklist := list;
    }

    /**
     * onRenderTick: while fading in, sets the corner colours and (when blurring)
     * the radius for the current progress, and ends the fade when the progress
     * reaches exactly 1. Never turns anything on.
     */
    method OnRenderTick(elapsed: int, cfg: Config, evaluate: (Float, int, int) -> int)
      requires Valid() && cfg.Valid() && elapsed >= 0
      modifies this`blurRadius, this`fadingIn, backgroundColor
      ensures Valid()
      ensures fadingIn ==> old(fadingIn)
      ensures !old(fadingIn) ==>
        && !fadingIn && blurRadius == old(blurRadius) && backgroundColor[..] == old(backgroundColor[..])
      ensures old(fadingIn) ==>
        var p := FadeProgress(elapsed, cfg.backgroundDuration);
        && fadingIn == (p != Num(1.0))
        && blurRadius == (if blurring then TickRadius(p, cfg.blurRadius) else old(blurRadius))
        && forall i :: 0 <= i < 4 ==> backgroundColor[i] == evaluate(p, 0, cfg.backgroundColor[i])
      ensures blurring && blurRadius.Num? ==> blurRadius.v >= 1.0
    {
      if fadingIn {
        var p := FadeProgress(elapsed, cfg.backgroundDuration);
        if blurring {
          blurRadius := TickRadius(p, cfg.blurRadius);
        }
        for i := 0 to 4
          modifies backgroundColor
          invariant forall j :: 0 <= j < i ==> backgroundColor[j] == evaluate(p, 0, cfg.backgroundColor[j])
        {
          backgroundColor[i] := evaluate(p, 0, cfg.backgroundColor[i]);
        }
        if p == Num(1.0) {
          fadingIn := false;
        }
      }
    }

    /**
     * onClientTick: moves the volume multiplier one step towards the target for the
     * window's focus state and, only if it was not already there, pushes the master
     * volume times the new multiplier to the sound system.
     */
    method OnClientTick(windowActive: bool, iconified: bool, masterVolume: real, cfg: Config)
      returns (pushed: Option<real>)
      requires Valid()
      modifies this`volumeMultiplier
      ensures Valid()
      ensures var target := TargetVolume(windowActive, iconified, cfg);
        && volumeMultiplier == Approach(old(volumeMultiplier), target)
        && (pushed.Some? <==> old(volumeMultiplier) != target)
        && (pushed.Some? ==> pushed.value == masterVolume * volumeMultiplier)
    {
      var target: real;
      if windowActive {
        target := 1.0;
      } else if cfg.volumeMinimized < cfg.volumeInactive && iconified {
        target := cfg.volumeMinimized;
      } else {
        target := cfg.volumeInactive;
      }
      pushed := None;
      if volumeMultiplier != target {
        if volumeMultiplier < target {
          volumeMultiplier := if volumeMultiplier + 0.5 < target then volumeMultiplier + 0.5 else target;
        } else {
          volumeMultiplier := if volumeMultiplier - 0.05 > target then volumeMultiplier - 0.05 else target;
        }
        pushed := Some(masterVolume * volumeMultiplier);
      }
    }

    /**
     * drawScreenBackground: before a world exists, a fixed dark quad; otherwise the
     * blur pass (when blurring and the post chain exists; a missing chain turns
     * blur off) and the four-colour quad. The colours are only read.
     */
    method DrawScreenBackground(world: bool, postChainPresent: bool, x1: int, y1: int, x2: int, y2: int)
      returns (quad: seq<Vertex>, blurPass: Option<Float>)
      requires Valid()
      modifies this`blurring
      ensures Valid()
      ensures !world ==> quad == FallbackQuad(x1, y1, x2, y2) && blurring == old(blurring)
      ensures world ==> quad == BackgroundQuad(backgroundColor[..], x1, y1, x2, y2)
      ensures world ==> blurring == (old(blurring) && postChainPresent)
      ensures blurPass == if world && old(blurring) && postChainPresent then Some(blurRadius) else None
    {
      blurPass := None;
      if !world {
        quad := FallbackQuad(x1, y1, x2, y2);
      } else {
        if blurring {
          if postChainPresent {
            blurPass := Some(blurRadius);
          } else {
            blurring := false;
          }
        }
        quad := [Vertex(x2, y1, Argb(backgroundColor[1])), Vertex(x1, y1, Argb(backgroundColor[0])),
                 Vertex(x1, y2, Argb(backgroundColor[3])), Vertex(x2, y2, Argb(backgroundColor[2]))];
      }
    }
  }
}
