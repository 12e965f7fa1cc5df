# Screen-background transitions and preference listeners of Modern UI for Minecraft

This project models three parts of Modern UI's Minecraft integration in Dafny and
proves properties of the model.

- **`BlurHandler`** is the screen-background transition controller. When a screen
  opens over the world it starts a Gaussian blur and a fade-in of four corner
  colours. A configurable blacklist and a screen's own callback can refuse the
  blur. Render ticks advance the fade, and client ticks move the master-volume
  multiplier towards a target that depends on window focus. The background quad
  and the blur pass are emitted when the background is drawn.
- **`EffectRenderType`** selects one of three render types for text effects. It
  also owns the shared 8 x 8 white texture those types sample. The texture is
  created lazily, with the GL texture binding saved and restored around creation,
  and it is released by `clear()`.
- **`PreferencesFragment`** contributes only the rules inside its listeners:
  - normalising the font-family list;
  - the integer option's clamp and slider/value mapping;
  - the colour-opacity rewrite, which replaces the alpha byte of every colour and
    formats it as hex again;
  - the guards that write a setting only when it changes.

Files:

- `Options.dfy`: the `Option` and `Result` types.
- `BlurHandler.dfy`: module `Blur`, the controller as the class `BlurHandler`.
- `EffectRenderType.dfy`: module `EffectRender`.
- `Numerals.dfy`: positional numerals, as written by `Integer.toString` and
  `Integer.toHexString(..).toUpperCase()` and read by `Integer.parseInt`.
- `JavaStrings.dfy`: `strip`, `isBlank`, `split`, `join`, `parseInt` and `toString`.
- `Preferences.dfy`: module `Preferences`, the listener rules.

Modelling choices:

- Host queries are function parameters or booleans. These are whether a world is
  loaded, window focus, whether the post chain exists, the class resolver, the
  subtype relation, `Color.parseColor`, `ColorEvaluator.evaluate` and the GPU
  resource provider.
- The configuration statics are passed in as a `Config` snapshot.
- Java `float` is modelled as a real number. The one place where a NaN can arise,
  a fade with duration 0 at elapsed time 0, is kept explicitly through
  `Float = Num(real) | NaN`.
- The four corner colours are mapped to vertices as follows:
  - slot 0 colours the top-left vertex;
  - slot 1 colours the top-right vertex;
  - slot 2 colours the bottom-right vertex;
  - slot 3 colours the bottom-left vertex.

  The emission order is top-right, top-left, bottom-left, bottom-right.

## Model

| member | source | states |
|---|---|---|
| Blur.Blocked | common/src/main/java/icyllis/modernui/mc/BlurHandler.java:101-117 | Only a present screen with blur enabled can be blocked. A vanilla screen is never blocked by an empty blacklist, and a Modern UI screen whose callback refuses blur is blocked exactly when blur is enabled. |
| Blur.MuiScreenIgnoresBlacklist | common/src/main/java/icyllis/modernui/mc/BlurHandler.java:101-117 | A Modern UI screen is judged by its callback alone, never by the blacklist. With no callback it is never blocked. |
| Blur.FilterResolved | common/src/main/java/icyllis/modernui/mc/BlurHandler.java:152-166 | At most one class is loaded per configured name. |
| Blur.FilterResolvedMembership | common/src/main/java/icyllis/modernui/mc/BlurHandler.java:152-166 | A class is loaded exactly when some non-empty configured name resolves to it and it is admitted. |
| Blur.FilterResolvedAppend | common/src/main/java/icyllis/modernui/mc/BlurHandler.java:152-166 | Loading keeps the input order: the entries of a concatenation are the entries of each part, in order. |
| Blur.BlacklistAsWritten | common/src/main/java/icyllis/modernui/mc/BlurHandler.java:149-170 | As written, every class that some non-empty name resolves to is blacklisted, whatever its type. |
| Blur.FilterResolvedAdmitsAll | common/src/main/java/icyllis/modernui/mc/BlurHandler.java:149-170 | Filtering with a test that admits every class gives the as-written blacklist. |
| Blur.Blacklist | common/src/main/java/icyllis/modernui/mc/BlurHandler.java:149-170 | As intended, the blacklist holds exactly the resolved classes that are screens. |
| Blur.BlacklistAdmitsNonScreen | common/src/main/java/icyllis/modernui/mc/BlurHandler.java:157-164 | An example input: as written, `java.lang.Object` enters the blacklist and then blocks a vanilla title screen. The corrected list leaves it out and does not block. |
| Blur.FadeProgress | common/src/main/java/icyllis/modernui/mc/BlurHandler.java:177 | Progress is at most 1 and non-negative for a positive duration. Before the duration has elapsed it is exactly elapsed / duration, and from then on it is exactly 1. It is NaN exactly when the duration and the elapsed time are both 0. |
| Blur.FadeProgressMonotonic | common/src/main/java/icyllis/modernui/mc/BlurHandler.java:177 | With a positive duration, progress never decreases over time. |
| Blur.TickRadius | common/src/main/java/icyllis/modernui/mc/BlurHandler.java:178-180 | The radius is at least 1 and at least progress × configured radius, and it is one of the two. NaN propagates. |
| Blur.TickRadiusAtEnd | common/src/main/java/icyllis/modernui/mc/BlurHandler.java:177-180 | An example at the end point: at progress 1 the radius is the configured radius. |
| Blur.TargetVolume | common/src/main/java/icyllis/modernui/mc/BlurHandler.java:203-211 | The target is 1 when the window is active. When it is not, the target is the smaller volume if iconified and the inactive volume otherwise, so it never exceeds the inactive volume. |
| Blur.Approach | common/src/main/java/icyllis/modernui/mc/BlurHandler.java:212-224 | One tick moves towards the target, up by at most 0.5 and down by at most 0.05, without overshooting. It stays put at the target. |
| Blur.ApproachReachesTarget | common/src/main/java/icyllis/modernui/mc/BlurHandler.java:212-224 | The target is reached after n ticks whenever n steps of 0.5 up or 0.05 down cover the distance. |
| Blur.ApproachFalling | common/src/main/java/icyllis/modernui/mc/BlurHandler.java:219-223 | While the target is out of reach, each falling tick removes exactly 0.05. |
| Blur.FullSwingTicks | common/src/main/java/icyllis/modernui/mc/BlurHandler.java:212-224 | A fade from 1 to 0 takes exactly 20 ticks, and a rise from 0 to 1 takes 2. |
| Blur.FallbackQuad | common/src/main/java/icyllis/modernui/mc/BlurHandler.java:235-243 | Without a world, the quad is the four corners in emission order, all opaque (30, 31, 34). |
| Blur.BackgroundQuad | common/src/main/java/icyllis/modernui/mc/BlurHandler.java:257-268 | With a world, every emitted corner carries the colour of its own slot. |
| Blur.ProcessBlurEffect | common/src/main/java/icyllis/modernui/mc/BlurHandler.java:274-287 | The ambient blur is applied exactly when the menu blurriness is at least 1 and the post chain exists, with a radius of at least 1.8. |
| Blur.BlurHandler.constructor | common/src/main/java/icyllis/modernui/mc/BlurHandler.java:68-90 | The controller starts with no screen, no blur, no fade, multiplier 1, an empty blacklist and zero colours. |
| Blur.BlurHandler.InBlacklist | common/src/main/java/icyllis/modernui/mc/BlurHandler.java:109-115 | The search finds a match exactly when some blacklist entry is a supertype of the screen's class. |
| Blur.BlurHandler.Blur | common/src/main/java/icyllis/modernui/mc/BlurHandler.java:95-146 | Without a world nothing changes. Closing stops blur and fade. A blocked screen ends blur. Blur and fade start only on the no-screen to screen edge, with radius 1 or the full radius depending on the duration, and colours zeroed or copied. A screen replacing a screen keeps fade, radius and colours. The controller invariant is kept. |
| Blur.BlurHandler.LoadBlacklist | common/src/main/java/icyllis/modernui/mc/BlurHandler.java:149-170 | The blacklist is replaced by the list the names give under the `isScreen` test, or emptied for a null list. With a test that admits every class, which is the code as written, it is the as-written list. |
| Blur.BlurHandler.OnRenderTick | common/src/main/java/icyllis/modernui/mc/BlurHandler.java:175-188 | Outside a fade nothing changes. During a fade the colours and, when blurring, the radius follow the progress. The fade ends exactly when progress is 1. A running blur keeps a radius of at least 1. |
| Blur.BlurHandler.OnClientTick | common/src/main/java/icyllis/modernui/mc/BlurHandler.java:202-228 | The multiplier takes one approach step to the focus target. The volume is pushed, as master × multiplier, exactly when the multiplier was not already at the target. |
| Blur.BlurHandler.DrawScreenBackground | common/src/main/java/icyllis/modernui/mc/BlurHandler.java:231-271 | The fallback quad is drawn without a world and the four-colour quad with one. The blur pass runs with the current radius when blurring and the chain exists. A missing chain turns blur off. |
| Numerals.DecimalValueOfToDigits | forge/src/main/java/icyllis/modernui/mc/forge/PreferencesFragment.java:664-670 | Reading back the decimal numeral of n gives n. |
| Numerals.HexValueOfPad | forge/src/main/java/icyllis/modernui/mc/forge/PreferencesFragment.java:729-739 | Reading back a zero-padded hex numeral that fits its width gives the number. |
| Numerals.HexToDigitsIsPad | forge/src/main/java/icyllis/modernui/mc/forge/PreferencesFragment.java:729-733 | A number with exactly w hex digits prints the same unpadded as padded to w. |
| Numerals.HexPadIgnoresHigh | forge/src/main/java/icyllis/modernui/mc/forge/PreferencesFragment.java:734-737 | Padding to w hex digits ignores any added multiple of 16^w, so only the low w digits are kept. |
| Numerals.HexPadDropFirst | forge/src/main/java/icyllis/modernui/mc/forge/PreferencesFragment.java:734-737 | Dropping the first digit of a numeral padded to w + 1 digits leaves it padded to w. |
| JavaStrings.IsBlankAppend | forge/src/main/java/icyllis/modernui/mc/forge/PreferencesFragment.java:198 | A concatenation is blank exactly when both parts are. |
| JavaStrings.TrimStartDropsBlank | forge/src/main/java/icyllis/modernui/mc/forge/PreferencesFragment.java:199 | Trimming the start drops only white space. |
| JavaStrings.TrimEndDropsBlank | forge/src/main/java/icyllis/modernui/mc/forge/PreferencesFragment.java:199 | Trimming the end drops only white space. |
| JavaStrings.TrimBothInfix | forge/src/main/java/icyllis/modernui/mc/forge/PreferencesFragment.java:199 | Trimming both ends leaves a substring whose dropped head and tail are both blank. |
| JavaStrings.Strip | forge/src/main/java/icyllis/modernui/mc/forge/PreferencesFragment.java:198-199 | The result is a substring of the input whose dropped head and tail are blank. It is empty exactly for a blank string, and otherwise starts and ends with non-white space. |
| JavaStrings.StripKeeps | forge/src/main/java/icyllis/modernui/mc/forge/PreferencesFragment.java:199 | A string that neither starts nor ends with white space is its own strip. |
| JavaStrings.StripIdempotent | forge/src/main/java/icyllis/modernui/mc/forge/PreferencesFragment.java:199 | Stripping twice is stripping once. |
| JavaStrings.Split | forge/src/main/java/icyllis/modernui/mc/forge/PreferencesFragment.java:197 | The split has at least one piece, and no piece contains the separator. |
| JavaStrings.Join | forge/src/main/java/icyllis/modernui/mc/forge/PreferencesFragment.java:192 | The first part starts the result, and with more than one part the separator follows it. |
| JavaStrings.SplitJava | forge/src/main/java/icyllis/modernui/mc/forge/PreferencesFragment.java:197 | Without the separator the result is the string itself. Otherwise trailing empty pieces are removed, so the result is empty or ends in a non-empty piece. No piece contains the separator. |
| JavaStrings.SplitJavaPieces | forge/src/main/java/icyllis/modernui/mc/forge/PreferencesFragment.java:197 | When the separator occurs, the result is a prefix of all the pieces between separators, and every piece left off is empty. |
| JavaStrings.JoinSplit | forge/src/main/java/icyllis/modernui/mc/forge/PreferencesFragment.java:197-205 | Joining the pieces of a split gives the string back. |
| JavaStrings.ParseInt | forge/src/main/java/icyllis/modernui/mc/forge/PreferencesFragment.java:668 | Text fails to parse when it has no digits after the optional sign, a character that is not a digit, or a magnitude beyond int range (2147483648 is allowed only after a minus sign). A parsed number is the digits' value, negated after a minus sign. |
| JavaStrings.IntToString | forge/src/main/java/icyllis/modernui/mc/forge/PreferencesFragment.java:664 | The text is a minus sign exactly for a negative number, then decimal digits with no leading zero except for 0 itself. |
| JavaStrings.ParseIntToString | forge/src/main/java/icyllis/modernui/mc/forge/PreferencesFragment.java:664-670 | Every int printed by toString parses back to itself. |
| Preferences.FamilyOf | forge/src/main/java/icyllis/modernui/mc/forge/PreferencesFragment.java:198-200 | A line names a family exactly when it is not blank, and the family is the stripped line. |
| Preferences.FamilyOfStripped | forge/src/main/java/icyllis/modernui/mc/forge/PreferencesFragment.java:198-200 | A named family is non-empty and stripped, and a stripped non-empty name names itself. |
| Preferences.Collect | forge/src/main/java/icyllis/modernui/mc/forge/PreferencesFragment.java:196-204 | The list has at most one entry per line. |
| Preferences.Normalized | forge/src/main/java/icyllis/modernui/mc/forge/PreferencesFragment.java:196-204 | The normalised list has at most one entry per line. |
| Preferences.CollectFirst | forge/src/main/java/icyllis/modernui/mc/forge/PreferencesFragment.java:196-204 | The first line's family, when it names one, leads the list. |
| Preferences.CollectMembership | forge/src/main/java/icyllis/modernui/mc/forge/PreferencesFragment.java:196-204 | A family is listed exactly when some line names it. |
| Preferences.CollectDistinct | forge/src/main/java/icyllis/modernui/mc/forge/PreferencesFragment.java:200-201 | No family is listed twice. |
| Preferences.CollectOrder | forge/src/main/java/icyllis/modernui/mc/forge/PreferencesFragment.java:196-204 | Families appear in the order in which lines first name them. |
| Preferences.CollectFixpoint | forge/src/main/java/icyllis/modernui/mc/forge/PreferencesFragment.java:196-204 | A duplicate-free list whose entries name themselves is collected unchanged. |
| Preferences.NormalizedWellFormed | forge/src/main/java/icyllis/modernui/mc/forge/PreferencesFragment.java:196-204 | The normalised list has no blank or unstripped entries and no duplicates. |
| Preferences.NormalizedFixpoint | forge/src/main/java/icyllis/modernui/mc/forge/PreferencesFragment.java:196-204 | An already normalised list normalises to itself. |
| Preferences.SplitJoin | forge/src/main/java/icyllis/modernui/mc/forge/PreferencesFragment.java:197-205 | Splitting joined parts that contain no separator gives the parts back. |
| Preferences.SplitJavaJoin | forge/src/main/java/icyllis/modernui/mc/forge/PreferencesFragment.java:197-205 | Splitting the line-joined list at line breaks gives it back when no entry is empty or holds a line break. |
| Preferences.NormalizeStable | forge/src/main/java/icyllis/modernui/mc/forge/PreferencesFragment.java:192-208 | The text written back into the box normalises to the same list, so a second focus loss without edits writes nothing. |
| Preferences.NormalizedStep | forge/src/main/java/icyllis/modernui/mc/forge/PreferencesFragment.java:197-202 | A one-step unfolding that serves as the loop's invariant step: one more line extends the list exactly as the loop body does, appending its stripped family when it is non-blank and not yet listed. |
| Preferences.NormalizedProperties | forge/src/main/java/icyllis/modernui/mc/forge/PreferencesFragment.java:196-204 | The normalised list is stripped, non-blank and duplicate-free, holds exactly the named families and keeps their first-occurrence order. |
| Preferences.NormalizeFontFamilies | forge/src/main/java/icyllis/modernui/mc/forge/PreferencesFragment.java:196-204 | The loop builds the normalised list of the newline-split text: stripped, non-blank, duplicate-free, exactly the named families, in first-occurrence order. |
| Preferences.FontFamilyOption.constructor | forge/src/main/java/icyllis/modernui/mc/forge/PreferencesFragment.java:192 | The box shows the stored families joined by line breaks. |
| Preferences.FontFamilyOption.OnFocusLost | forge/src/main/java/icyllis/modernui/mc/forge/PreferencesFragment.java:193-214 | The box shows the normalised list. The setting is written and saved once, exactly when the list differs from the stored one. |
| Preferences.Clamp | forge/src/main/java/icyllis/modernui/mc/forge/PreferencesFragment.java:668-669 | The result lies in [min, max], equals the input when that is in range and equals the nearer bound otherwise. |
| Preferences.JavaDiv | forge/src/main/java/icyllis/modernui/mc/forge/PreferencesFragment.java:673-682 | For a positive divisor the quotient truncates towards zero: q·b ≤ a < q·b + b for a non-negative dividend, and q·b − b < a ≤ q·b for a negative one. |
| Preferences.Steps | forge/src/main/java/icyllis/modernui/mc/forge/PreferencesFragment.java:680 | The step count is the largest number of whole steps that fit between min and max. |
| Preferences.ProgressValueInRange | forge/src/main/java/icyllis/modernui/mc/forge/PreferencesFragment.java:680-692 | Every slider position maps to a value in [min, max]. |
| Preferences.ProgressToValue | forge/src/main/java/icyllis/modernui/mc/forge/PreferencesFragment.java:686 | A slider position at or above 0 stands for a value at or above the minimum, and a negative one for a value below it. |
| Preferences.ValueToProgress | forge/src/main/java/icyllis/modernui/mc/forge/PreferencesFragment.java:682 | A value at or above the minimum maps to the number of whole steps it lies above the minimum: that many steps fit, one more does not. |
| Preferences.ProgressRoundTrip | forge/src/main/java/icyllis/modernui/mc/forge/PreferencesFragment.java:673-686 | Mapping a position to a value and back gives the same position. |
| Preferences.ValueToProgressSnaps | forge/src/main/java/icyllis/modernui/mc/forge/PreferencesFragment.java:673-674 | A value in range maps to a position in [0, steps] whose value is the largest grid value not above it. |
| Preferences.IntegerOption.constructor | forge/src/main/java/icyllis/modernui/mc/forge/PreferencesFragment.java:663-682 | The box shows the current value. The slider sits at the truncated position, kept within [0, steps]. |
| Preferences.IntegerOption.OnFocusLost | forge/src/main/java/icyllis/modernui/mc/forge/PreferencesFragment.java:665-678 | Unparsable text changes nothing. Otherwise the clamped number is shown, and it is stored, with the slider moved and one save, exactly when it differs from the current value. |
| Preferences.IntegerOption.OnProgressChanged | forge/src/main/java/icyllis/modernui/mc/forge/PreferencesFragment.java:685-688 | The box shows the value of the new slider position. |
| Preferences.IntegerOption.OnStopTrackingTouch | forge/src/main/java/icyllis/modernui/mc/forge/PreferencesFragment.java:691-698 | The slider's value, always within [min, max], is stored, shown and saved once, exactly when it differs from the current value. |
| Preferences.IndexOf | forge/src/main/java/icyllis/modernui/mc/forge/PreferencesFragment.java:565 | The position found holds the value, and no earlier position does: the constant's ordinal. |
| Preferences.SpinnerOption.constructor | forge/src/main/java/icyllis/modernui/mc/forge/PreferencesFragment.java:564-565 | The option holds the configured value with nothing saved, and the spinner shows it at its ordinal. |
| Preferences.SpinnerOption.OnItemSelected | forge/src/main/java/icyllis/modernui/mc/forge/PreferencesFragment.java:568-573 | The spinner shows the picked position and the setting becomes its value, so the spinner keeps showing the setting. It is saved once, exactly when the value differs from the old one. |
| Preferences.AlphaByte | forge/src/main/java/icyllis/modernui/mc/forge/PreferencesFragment.java:719 | The alpha byte lies in [0, 255] and is within 0.5 of opacity × 255 (round half up). |
| Preferences.WithAlpha | forge/src/main/java/icyllis/modernui/mc/forge/PreferencesFragment.java:728 | The new colour is an unsigned 32-bit value: the old colour's low 24 bits under alpha byte v. |
| Preferences.FormatColorAsWritten | forge/src/main/java/icyllis/modernui/mc/forge/PreferencesFragment.java:729-738 | As written, the result is "#" followed by hex digits. |
| Preferences.FormatColorAsWrittenValue | forge/src/main/java/icyllis/modernui/mc/forge/PreferencesFragment.java:729-738 | As written, the digits denote the colour exactly, but there are 6 of them for alpha 0, 7 for alpha 1 to 15 and 8 from 16 on. |
| Preferences.FormatColor | forge/src/main/java/icyllis/modernui/mc/forge/PreferencesFragment.java:729-739 | As intended, the result is "#" and 8 hex digits, or 6 when alpha is 0, and the digits denote the colour exactly. |
| Preferences.FormatColorAsWrittenAgrees | forge/src/main/java/icyllis/modernui/mc/forge/PreferencesFragment.java:729-739 | As written, the format agrees with the intended one when alpha is 0 or at least 16. |
| Preferences.FormatColorAsWrittenDropsZero | forge/src/main/java/icyllis/modernui/mc/forge/PreferencesFragment.java:729-733 | As written, alpha 1 to 15 gives "#" and 7 digits, where the intended format has 8. |
| Preferences.OnePercentOpacity | forge/src/main/java/icyllis/modernui/mc/forge/PreferencesFragment.java:719-733 | An example input: opacity 0.01 on black gives alpha 3, stored as "#3000000" as written and "#03000000" as intended. |
| Preferences.Recolor | forge/src/main/java/icyllis/modernui/mc/forge/PreferencesFragment.java:727-733 | In either format, the stored string is "#" followed by hex digits only. |
| Preferences.RecolorDenotes | forge/src/main/java/icyllis/modernui/mc/forge/PreferencesFragment.java:727-738 | In either format the stored digits denote the parsed colour's RGB bits under the new alpha byte. The two formats agree for alpha 0 and alpha from 16 on. |
| Preferences.ColorOpacityOption.SetOpacity | forge/src/main/java/icyllis/modernui/mc/forge/PreferencesFragment.java:718-742 | An empty list is seeded with "#FF000000". If any colour fails to parse the setting is unchanged. Otherwise every colour keeps its RGB bits, takes the new alpha and is stored in the format as written, or in the zero-padded format when `intended` is set. |
| EffectRender.Select | common/src/main/java/icyllis/modernui/mc/text/EffectRenderType.java:75 | Polygon offset takes precedence over see-through, and with neither flag the plain type is used. |
| EffectRender.ForMode | common/src/main/java/icyllis/modernui/mc/text/EffectRenderType.java:80-86 | SEE_THROUGH and POLYGON_OFFSET map to their types and every other mode to the plain type, agreeing with the flag form. |
| EffectRender.ForModeCoversSelect | common/src/main/java/icyllis/modernui/mc/text/EffectRenderType.java:75-85 | Every type the flag form selects is also selected by some display mode. |
| EffectRender.WhitePixels | common/src/main/java/icyllis/modernui/mc/text/EffectRenderType.java:94-115 | The upload is 8 × 8 × 4 = 256 bytes, every one 0xFF. |
| EffectRender.MemSet | common/src/main/java/icyllis/modernui/mc/text/EffectRenderType.java:115 | Every byte of the buffer becomes the value. |
| EffectRender.EffectTextures.constructor | common/src/main/java/icyllis/modernui/mc/text/EffectRenderType.java:44 | WHITE starts unset. |
| EffectRender.EffectTextures.BindTexture | common/src/main/java/icyllis/modernui/mc/text/EffectRenderType.java:124-130 | Binding makes the texture current. |
| EffectRender.EffectTextures.TexParameter | common/src/main/java/icyllis/modernui/mc/text/EffectRenderType.java:127-128 | A filter is set on the bound texture only. |
| EffectRender.EffectTextures.MakeWhiteTexture | common/src/main/java/icyllis/modernui/mc/text/EffectRenderType.java:92-132 | A missing descriptor or image fails fatally with WHITE unset and the GL state unchanged. Otherwise WHITE is the new texture: white, NEAREST both ways, with the previous binding restored. |
| EffectRender.EffectTextures.GetRenderType | common/src/main/java/icyllis/modernui/mc/text/EffectRenderType.java:72-76 | The texture is created only if unset, and after success it is set. An existing texture is kept with nothing else changed. On creation the new image holds the white pixels and both its filters are nearest, and no other image changes. On failure nothing changes, the texture stays unset, and the error says whether the descriptor or the image was missing. The selected type follows the precedence rule. |
| EffectRender.EffectTextures.Clear | common/src/main/java/icyllis/modernui/mc/text/EffectRenderType.java:88-90 | The texture, if any, is released and WHITE is unset, so the next selection creates it again. |

## Left out

- Blur.BlurHandler.OnRenderTick: the colour interpolation `ColorEvaluator.evaluate` is a parameter. That the fade ends on exactly the configured colours depends on it and is not stated.
- Blur.FadeProgress: float rounding of the division is not modelled, because progress is a real number. Only the NaN of 0/0 is kept.
- Blur.BlurHandler.OnClientTick: float rounding of the 0.5 and 0.05 steps is not modelled.
- Blur.BlurHandler.DrawScreenBackground: the post chain's uniform upload, the render-target rebinding and the flush are GPU calls and are reduced to the returned blur pass.
- Blur.BlurHandler.LoadBlacklist: null names inside the list are not modelled, because the list holds plain strings. Logging is left out.
- The volatile configuration statics and concurrent updates are not modelled; each entry point reads one snapshot.
- Preferences.IntegerOption.OnFocusLost: moving the slider also fires the slider's own change callback, which rewrites the box with the snapped value. SeekBar internals are not part of this model, so the box keeps the clamped text here.
- Preferences.IntegerOption.constructor: keeping the slider within [0, steps] is SeekBar behaviour and is stated, not derived.
- Preferences.SpinnerOption.constructor: the values are taken to be the enum's constants in ordinal order, as `E.values()` lists them, so a constant's ordinal is its first position (Preferences.IndexOf); other arrays are not modelled.
- JavaStrings.ParseInt: only ASCII digits are read; other Unicode decimal digits that Integer.parseInt accepts are not.
- Preferences.Steps: the int overflow of max − min for extreme bounds is not modelled.
- Preferences.ColorOpacityOption.SetOpacity: `Color.parseColor` is a parameter. The opacity getter, the float option's slider, the save callback and a null colour list are not modelled.
- The toast after a font change, the view construction and the layout are UI and are left out.
- EffectRender: the render-state shards that the three types set up, including binding WHITE as shader texture 0, are not modelled. `writePixels` is taken to succeed, because its result is only checked by a Java `assert`.
- ThemeControl.java and ModernUIText.java are context, not part of this model.

## Findings

| source | as written | input that shows it | evidently intended | confidence | as-written member | corrected member |
|---|---|---|---|---|---|---|
| forge/src/main/java/icyllis/modernui/mc/forge/PreferencesFragment.java:729-733 | `'#' + Integer.toHexString(color)` drops leading zeros, so alpha bytes 1 to 15 give "#" and 7 hex digits | opacity 0.01 on "#000000": alpha 3, stored "#3000000" | "#03000000", the colour as 8 hex digits | not executed | Preferences.FormatColorAsWritten (Preferences.FormatColorAsWrittenValue, Preferences.OnePercentOpacity, Preferences.ColorOpacityOption.SetOpacity with `intended` false) | Preferences.FormatColor (Preferences.ColorOpacityOption.SetOpacity with `intended` true) |
| common/src/main/java/icyllis/modernui/mc/BlurHandler.java:157-164 | the cast to `Class<? extends Screen>` is unchecked, so it never throws; any resolvable class is blacklisted and the ClassCastException handler is dead | blacklist entry "java.lang.Object" blocks blur on every screen that is not a Modern UI screen | classes that are not screens are reported and skipped | not executed | Blur.BlacklistAsWritten (Blur.BlacklistAdmitsNonScreen, Blur.BlurHandler.LoadBlacklist with an `isScreen` that admits every class) | Blur.Blacklist (Blur.BlurHandler.LoadBlacklist with the screen test) |
