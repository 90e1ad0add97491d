# NDS envelope converter, modelled in Dafny

The model covers the core of `adsr_calculator` and proves properties of it.
That program converts the four ADSR envelope settings of the Nintendo DS
sound engine (attack, decay, sustain and release registers, 0..127) in both
directions: to seconds and decibels for soundfont editors, and back from
those values to registers. It also covers the companion script
`nds_adsr_timings.py`, which prints the time of every table entry.

The model is in six files:

- `tables.dfy` (`NdsTables`):
  - the three 128-entry tables `App::new` installs, the zero point -92544 and the 192 Hz tick rate;
  - the shape facts the algorithms depend on: attack multipliers strictly falling from 255 to 0, decay decrements strictly rising from 1 to 65535, sustain levels strictly rising from the zero point to 0.
- `envelope.dfy` (`NdsEnvelope`): forward simulation as specification functions.
  - Rust's truncating `i32` division is written out, and the `i32` products are shown not to overflow.
  - Attack and decay tick counts, and the sustain amplitude and attenuation.
  - Their monotonicity in the register.
- `search.dfy` (`NdsSearch`): the inverse direction as specification functions.
  - Each scan returns the first register of 1..126 that beats the target, or 127.
  - Lemmas state what this scan means: it picks out a unique register, splits 1..126 at a threshold, and how it relates to the forward direction.
- `text.dfy` (`AdsrText`): `str::parse::<u8>`, `string_is_int`, `u8::to_string` and `split_ascii_whitespace`.
- `app.dfy` has two modules:
  - `AdsrApp`: the application state as a value (`AppState`), one handler step as a function (`Step`), and the class `App` with the source's fields. Its `calculate_*` methods run the source's loops, and its `Update` is proved to perform exactly `Step`.
  - `AdsrAppFacts`: properties of the handler. It keeps a consistency invariant, typing and pressing the button have the stated effects, and pasting fills the fields in order.
- `timings.dfy` (`AdsrTimings`): the script's three tables and three loops. Its tables are proved equal to the application's. Its times are compared with the application's.

The environment is modelled as parameters:

- The three floating-point services the handler calls (`str::parse::<f32>`, `f32::to_string`, `f64::log10`) are function-valued parameters of type `FloatLib`.
- The clipboard text is a field of the paste message.
- Register-to-time readings are exact rationals.

## Model

| member | source | states |
|---|---|---|
| NdsTables.AttackTableShape | src/main.rs:203-213 | the attack table has 128 entries, strictly falling from 255 (register 0) to 0 (register 127) |
| NdsTables.DecayTableShape | src/main.rs:214-224 | the decay table has 128 entries, strictly rising from 1 to 65535 |
| NdsTables.SustainTableShape | src/main.rs:225-239 | the sustain table has 128 entries, strictly rising from the zero point -92544, with -128 at index 126 and 0 at index 127 |
| NdsTables.NdsTablesShaped | src/main.rs:203-239 | the installed tables have the shape every simulator and search relies on (pairwise order, end values) |
| NdsTables.AttackBounds | src/main.rs:203-212 | every attack multiplier except register 0's is in 0..254 |
| NdsTables.DecayBounds | src/main.rs:214-223 | every decay decrement is in 1..65535 |
| NdsTables.DecayTableWideGaps | src/main.rs:214-224 | every two neighbouring decay decrements a < b satisfy 92544 * (b - a) >= a * b, the margin that makes their tick counts differ |
| NdsTables.SustainBounds | src/main.rs:225-238 | every sustain level except the last lies between the zero point and -128 |
| NdsEnvelope.TruncDiv | src/main.rs:65 | Rust's `/` on `i32`: the remainder takes the sign of the dividend, so the quotient times the divisor lies between 0 and the dividend |
| NdsEnvelope.AttackProductFitsI32 | src/main.rs:65 | `attack_table[r] * vel` never overflows `i32` for a velocity between the zero point and 0, and the tick keeps the velocity in that range |
| NdsEnvelope.AttackStep | src/main.rs:65 | one attack tick `attack_table[r] * vel / 0xff` in `i32`: the quotient is rounded toward zero, so the quotient times 255 lies between 0 and the product, less than 255 away from it |
| NdsEnvelope.AttackStepRises | src/main.rs:63-66 | a multiplier of at most 254 moves a negative velocity strictly toward 0 without passing it, so the attack loop ends |
| NdsEnvelope.FullMultiplierIsFixedPoint | src/main.rs:62-70 | multiplier 255 (register 0) leaves every velocity unchanged, which is why register 0 must be answered with infinity |
| NdsEnvelope.AttackStepsFrom | src/main.rs:63-66 | the attack loop from a negative velocity takes at least one tick and at most one per unit of distance |
| NdsEnvelope.AttackSteps | src/main.rs:62-67 | the attack loop of a register in 1..127 from the zero point takes at least one tick and at most 92544 |
| NdsEnvelope.AttackStepsNonIncreasing | src/main.rs:58-87 | a higher attack register never takes more ticks |
| NdsEnvelope.AttackLastRegisterOneTick | src/main.rs:63-66 | register 127 (multiplier 0) finishes in one tick |
| NdsEnvelope.CeilDiv | src/main.rs:93-96 | the least number of decrements that covers a distance |
| NdsEnvelope.CeilDivUnique | src/main.rs:93-96 | the two properties of that least count determine it |
| NdsEnvelope.CeilDivStrict | src/main.rs:93-96 | a decrement larger by that margin covers the distance in strictly fewer ticks |
| NdsEnvelope.DecaySteps | src/main.rs:89-97 | the decay and release tick count of a register is between 1 and 92544 |
| NdsEnvelope.DecayStepsNonIncreasing | src/main.rs:89-114 | a higher decay register never takes more ticks |
| NdsEnvelope.DecayStepsDecreasing | src/main.rs:89-114 | with those margins between neighbouring decrements, a higher decay register takes strictly fewer ticks, so no two registers share a decay or release time |
| NdsEnvelope.DecayStepsEnds | src/main.rs:93-96 | register 0 takes 92544 ticks and register 127 two |
| NdsEnvelope.Seconds | src/main.rs:67 | `steps as f64 / TPS`: the seconds times the 192 Hz tick rate give back the tick count |
| NdsEnvelope.SecondsOrder | src/main.rs:67 | dividing by the tick rate keeps the order of tick counts, in both directions |
| NdsEnvelope.SustainAmplitude | src/main.rs:122-123 | the amplitude `sustain_table[127 - r] / ZERO_POINT` is 0 for register 0, 1 for register 127 and in (0, 1] otherwise |
| NdsEnvelope.SustainAmplitudeIncreasing | src/main.rs:122-123 | a higher sustain register holds a strictly larger amplitude |
| NdsEnvelope.SustainAttenuation | src/main.rs:122-125 | the attenuation `abs(20 log10(abs(amplitude)))` is never negative, and it is 0 for register 127 when `log10(1)` is 0 |
| NdsEnvelope.SustainAttenuationDecreasing | src/main.rs:116-126 | with an increasing logarithm, a higher sustain register attenuates strictly less, and register 127 not at all |
| NdsSearch.FirstFrom | src/main.rs:72-85 | the scan returns the first candidate below 127 that qualifies, or 127, and no earlier candidate qualifies |
| NdsSearch.AttackSearch | src/main.rs:71-86 | the attack search returns a register in 1..127; every register before it is no faster than the target, and it is faster unless it is 127 |
| NdsSearch.AttackSearchIsFirst | src/main.rs:71-86 | those properties single out one register: the search result |
| NdsSearch.AttackSearchThreshold | src/main.rs:71-86 | a register of 1..126 beats the target exactly when it is at or above the search result |
| NdsSearch.AttackSearchInvertsForward | src/main.rs:58-86 | searching for one tick more than register r's time finds a register no larger than r with the same tick count |
| NdsSearch.AttackSearchOfExactTimeSkips | src/main.rs:78 | because the comparison is strict, searching for exactly register r's time returns a register above r, whose tick count is smaller |
| NdsSearch.DecaySearch | src/main.rs:98-113 | the decay (and release) search returns a register in 1..127, earlier registers are no faster than the target, and it is faster unless it is 127 |
| NdsSearch.DecaySearchIsFirst | src/main.rs:98-113 | those properties single out the search result |
| NdsSearch.DecaySearchThreshold | src/main.rs:98-113 | a register of 1..126 beats the target exactly when it is at or above the search result |
| NdsSearch.DecaySearchInvertsForward | src/main.rs:89-113 | searching for one tick more than register r's time finds a register no larger than r with the same tick count |
| NdsSearch.DecaySearchRoundTrip | src/main.rs:99-112 | with those margins, searching for one tick more than register r's decay time returns r itself |
| NdsSearch.NdsDecaySearchRoundTrip | src/main.rs:99-112 | on the converter's own tables, every decay and release register of 1..126 is found again from one tick more than its time |
| NdsSearch.DecaySearchOfExactTime | src/main.rs:99-112 | with those margins, searching for exactly register r's decay time returns r + 1, since the comparison is strict |
| NdsSearch.LastRegisterRoundTrips | src/main.rs:58-114 | searching for the attack or decay time of register 127 returns 127 |
| NdsSearch.SignedDecibels | src/main.rs:130-132 | the decibel value is minus infinity exactly when the amplitude is 0 |
| NdsSearch.SustainSearch | src/main.rs:127-139 | the sustain search returns a register in 1..127 (candidate 0 is minus infinity); every register before it is no louder than the negated target, and it is louder unless it is 127 |
| NdsSearch.SustainSearchIsFirst | src/main.rs:127-139 | those properties single out the search result |
| NdsSearch.SustainSearchThreshold | src/main.rs:127-139 | with an increasing logarithm, a register of 1..126 beats the target exactly when it is at or above the result |
| NdsSearch.SustainAttenuationIsNegatedDecibels | src/main.rs:122-133 | with an increasing logarithm that is 0 at 1, the forward attenuation of a register of 1..127 is the negated decibel value the search compares |
| NdsSearch.SustainLastRegisterRoundTrips | src/main.rs:116-139 | searching for the attenuation of register 127 returns 127 |
| NdsSearch.SustainSearchOfExactAttenuation | src/main.rs:116-139 | searching for exactly the attenuation of register r of 1..126 returns r + 1, since the comparison is strict |
| AdsrText.DigitChar | src/main.rs:399 | the digit character of a value below 10 reads back as that value |
| AdsrText.HornerSnoc | src/main.rs:398 | appending a digit multiplies the value so far by ten and adds the digit |
| AdsrText.CheckedDigitsValue | src/main.rs:439 | `u8`'s checked digit loop succeeds exactly on digit strings whose value is below 256, and then yields that value |
| AdsrText.ParseU8 | src/main.rs:439 | `s.parse::<u8>()` as an optional value; what it accepts is stated by `AdsrText.ParseU8Accepts` |
| AdsrText.ParseU8Accepts | src/main.rs:438-442 | `parse::<u8>` accepts exactly an optional `+` followed by one or more digits worth less than 256 (never `-`, empty text or a bare `+`), with the decimal value |
| AdsrText.StringIsInt | src/main.rs:438-448 | `string_is_int` holds exactly when `parse::<u8>` succeeds; text that parses only as `f32` gives false, like unreadable text |
| AdsrText.Decimal | src/main.rs:399 | `to_string` produces at least one digit, with a leading zero only for 0 |
| AdsrText.DecimalValueOfDecimal | src/main.rs:399 | the digits of `to_string(n)` read back give n |
| AdsrText.U8RoundTrip | src/main.rs:398-399 | printing a `u8` and parsing it again gives the same value, so a pasted integer hands on integer text |
| AdsrText.U8TextNormalised | src/main.rs:398-399 | parse then print normalises integer text: the result is digits only, with no `+` sign and a leading zero only for 0, and it has the same value |
| AdsrText.WordLength | src/main.rs:394 | the leading run of non-whitespace ends at whitespace or at the end of the text |
| AdsrText.WordLengthAppend | src/main.rs:394 | text appended after a leading word that already ends, or that starts with whitespace, leaves the leading word as it was |
| AdsrText.Tokens | src/main.rs:394 | `split_ascii_whitespace` yields only non-empty tokens without ASCII whitespace; where the tokens break is stated by the three lemmas below |
| AdsrText.WithoutWhitespace | src/main.rs:394 | the text with all of its ASCII whitespace removed has no whitespace |
| AdsrText.TokensCoverText | src/main.rs:394 | the tokens joined together are the text with its whitespace removed: nothing else is lost or reordered |
| AdsrText.TokensOfWord | src/main.rs:394 | a non-empty text without whitespace is one token, itself |
| AdsrText.TokensOfBlank | src/main.rs:394 | a text of whitespace only has no tokens |
| AdsrText.TokensSplitAtWhitespace | src/main.rs:394 | a whitespace character always separates tokens: the tokens of `a`, whitespace, `b` are the tokens of `a` followed by those of `b` |
| AdsrApp.ForcesForward | src/main.rs:322-325 | `!x == 0` on a `u8` holds exactly for 255, so a 255 in any register forces register-to-time |
| AdsrApp.AttackReading | src/main.rs:58-87 | infinity exactly for register 0 and a panic exactly for a register above 127, both in register-to-time mode; in register search a whole register number in 1..127; otherwise a positive time |
| AdsrApp.DecayReading | src/main.rs:89-114 | decay, and release (src/main.rs:142-168): never infinity; a panic exactly for a register above 127 in register-to-time mode; in register search a whole register number in 1..127; otherwise a positive time |
| AdsrApp.SustainReading | src/main.rs:116-140 | never infinity; a panic exactly for a register above 127 in register-to-time mode; 0 for register 0; in register search a whole register number in 1..127; otherwise a non-negative attenuation |
| AdsrApp.Calculated | src/main.rs:170-174 | `calculate` changes only the four results: registers, targets, texts and mode stay |
| AdsrApp.ChangeField | src/main.rs:328-375 | a change message writes only its own field and keeps its result; the text always; for `u8` text the value as register and target, with the mode kept; for other text register 0 and register search |
| AdsrApp.Settled | src/main.rs:428-434 | the closing check changes only the mode: it clears register search when all four texts are integers and otherwise keeps it |
| AdsrApp.PasteText | src/main.rs:398-402 | a `u8` token hands on integer text of the same value; an `f32` token that is not `u8` hands on its printed `f32` value; a token that is neither hands on the previous text |
| AdsrApp.PasteTokens | src/main.rs:394-423 | with no tokens or a position outside 0..3 nothing changes; once a token has been handed to a field, four integer texts mean register-to-time mode |
| AdsrApp.Step | src/main.rs:319-435 | after every message four integer texts mean register-to-time mode; `CopyToClipboard` changes nothing but, through the closing check, the mode |
| AdsrApp.Initial | src/main.rs:240-257 | every field starts at register 127, target 0, empty text and result 0, in register-to-time mode |
| AdsrApp.PasteTokensTurn | src/main.rs:397-423 | one turn of the paste loop writes the token's text into the field and then performs a full change-message step on it |
| AdsrApp.App.constructor | src/main.rs:200-259 | `App::new`: the NDS tables, every register 127, every target 0, every text empty, every result 0, register-to-time mode |
| AdsrApp.App.CalculateAttack | src/main.rs:58-87 | the attack loop gives the search result for the target, or infinity for register 0, a panic above 127, and otherwise the seconds of the register's tick count |
| AdsrApp.App.CalculateDecay | src/main.rs:89-114 | the decay loop gives the search result for the target, or a panic above 127, or the seconds of the register's tick count |
| AdsrApp.App.DecrementTicks | src/main.rs:89-114 | the shared decrement loop counts exactly the least number of decrements reaching the zero point, or finds the first register faster than the target |
| AdsrApp.App.CalculateSustain | src/main.rs:116-140 | the sustain loop gives the search result for the target, or 0 for register 0, a panic above 127, and otherwise the register's attenuation in decibels |
| AdsrApp.App.CalculateRelease | src/main.rs:142-168 | the release loop is the decay loop with the release register and target |
| AdsrApp.App.Calculate | src/main.rs:170-174 | all four results are computed in one mode and nothing else of the state changes |
| AdsrApp.App.Update | src/main.rs:319-435 | every message changes the state exactly as one handler step `Step` prescribes |
| AdsrApp.App.OnCalculatePressed | src/main.rs:321-327 | a 255 in any register clears register search, then all four results are calculated in the resulting mode |
| AdsrApp.App.OnAttackChanged | src/main.rs:328-339 | integer text sets register and target to its value; other text sets register 0, the `f32` value or 0 as target, and register search |
| AdsrApp.App.OnDecayChanged | src/main.rs:340-351 | as for attack, on the decay field |
| AdsrApp.App.OnSustainChanged | src/main.rs:352-363 | as for attack, on the sustain field |
| AdsrApp.App.OnReleaseChanged | src/main.rs:364-375 | as for attack, on the release field |
| AdsrApp.App.Paste | src/main.rs:389-426 | a non-empty clipboard is split into tokens and handed on from the given position until the tokens or the fields run out; an empty one changes nothing |
| AdsrApp.App.HandToField | src/main.rs:403-421 | the token's text is written into the field at the position and then handled as that field's change message, closing check included |
| AdsrAppFacts.ChangeFieldAgrees | src/main.rs:328-375 | after a field change, every field with integer text holds that integer as register and as target |
| AdsrAppFacts.PasteTokensAgree | src/main.rs:397-423 | the paste loop keeps that agreement |
| AdsrAppFacts.InitialConsistent | src/main.rs:240-257 | the initial state is consistent: no text is an integer and the mode is register-to-time |
| AdsrAppFacts.StepKeepsConsistent | src/main.rs:319-435 | every message keeps every integer text in agreement with its field, and register-to-time mode whenever all four texts are integers |
| AdsrAppFacts.ChangedFieldEffect | src/main.rs:328-375 | a change message sets its field's text, register and target and keeps its result; integer text keeps search only while some text is not an integer, other text selects search |
| AdsrAppFacts.ChangedFieldKeepsOthers | src/main.rs:328-375 | a change message leaves the other three fields as they were |
| AdsrAppFacts.CalculatePressedKeepsFields | src/main.rs:321-327 | the button changes only results and mode; search stays selected only if it was, no register is 255 and not all texts are integers |
| AdsrAppFacts.Register255Panics | src/main.rs:321-327 | a register of 255 forces register-to-time and its own calculation then indexes past the table |
| AdsrAppFacts.SearchResultsAreRegisters | src/main.rs:71-86 | in register search every result is a whole register number in 1..127 |
| AdsrAppFacts.TypedRegistersGiveTimes | src/main.rs:319-435 | four typed registers in 1..127 give, on the button, register-to-time mode and exactly those registers' times and attenuation |
| AdsrAppFacts.PhaseIndex | src/main.rs:403-421 | the positions 0..3 of the paste loop name the four fields |
| AdsrAppFacts.CarriedTexts | src/main.rs:397-402 | the paste loop hands out one text per token; what each text is, is stated by `AdsrAppFacts.CarriedTextsRule` |
| AdsrAppFacts.CarriedTextsRule | src/main.rs:397-402 | each carried text is the paste rule applied to its own token and to the text carried before it (the empty text for the first); a `u8` token's text parses to the token's value |
| AdsrAppFacts.ChangeFieldInputs | src/main.rs:328-375 | a change message replaces exactly its own field's text |
| AdsrAppFacts.PasteTokensInputs | src/main.rs:397-423 | from the start position on, the fields receive the carried texts in order, as many as there are tokens and fields; every other text is kept |
| AdsrAppFacts.PasteFillsFields | src/main.rs:389-426 | a paste at position 0..3 fills the fields from there on with the carried texts of the clipboard's tokens |
| AdsrAppFacts.UnreadableTokenRepeatsPrevious | src/main.rs:397-402 | a token that is neither `u8` nor `f32`, such as `!`, repeats the previous token's text: `10 ! 30 40` gives 10, 10, 30, 40 |
| AdsrAppFacts.PasteOutsideFieldsWritesNothing | src/main.rs:420 | a paste aimed outside positions 0..3 writes no field |
| AdsrTimings.ScriptAttackTableIsNds | nds_adsr_timings.py:1-16 | the script's attack table is the application's, entry for entry |
| AdsrTimings.ScriptDecayTableIsNds | nds_adsr_timings.py:18-33 | the script's decay table is the application's |
| AdsrTimings.ScriptSustainTableIsNds | nds_adsr_timings.py:35-50 | the script's sustain table is the application's |
| AdsrTimings.ScriptTablesAreNdsTables | nds_adsr_timings.py:1-52 | the script's three tables are the application's, and its frame rate is the application's tick rate |
| AdsrTimings.ScriptNext | nds_adsr_timings.py:61 | one tick of the script's attack loop lowers a positive velocity by at least one without going negative |
| AdsrTimings.ScriptAttackTicks | nds_adsr_timings.py:57-61 | the script's attack loop from a positive velocity takes at least one tick and at most one per unit |
| AdsrTimings.ScriptFullMultiplierTicks | nds_adsr_timings.py:56-61 | multiplier 255 takes exactly one tick per unit of velocity, so 127 ticks from velocity 127 |
| AdsrTimings.ScriptZeroMultiplierTicks | nds_adsr_timings.py:56-61 | multiplier 0 finishes in one tick |
| AdsrTimings.ScriptAttackTicksMonotone | nds_adsr_timings.py:56-61 | a larger multiplier never takes fewer ticks |
| AdsrTimings.ScriptAttackTicksFromMonotone | nds_adsr_timings.py:56-61 | a lower start velocity never takes more ticks |
| AdsrTimings.CountAttackTicks | nds_adsr_timings.py:57-61 | the script's attack while loop counts exactly `ScriptAttackTicks(attack, start)` ticks |
| AdsrTimings.ScriptDecrementTicks | nds_adsr_timings.py:67-70 | the decrement count, also used by the release loop (lines 76-79), takes the velocity from the start to the floor or below, and one decrement fewer leaves it above the floor |
| AdsrTimings.AttackTimings | nds_adsr_timings.py:56-62 | the first loop yields, in table order, the seconds of every multiplier's ticks from velocity 127 |
| AdsrTimings.CountDecrements | nds_adsr_timings.py:67-70 | the script's decrement loop counts exactly the least number of decrements covering the distance to the floor |
| AdsrTimings.DecayTimings | nds_adsr_timings.py:64-71 | the second loop yields, in table order, the seconds of every decrement from 0 down to `sustain_table[sustain_value]` |
| AdsrTimings.ReleaseTimings | nds_adsr_timings.py:73-80 | the third loop yields, in table order, the seconds of every decrement from 127 down to -92544 |
| AdsrTimings.RunScript | nds_adsr_timings.py:52-80 | the whole script on its tables: 128 times per loop, the decay times equal to the application's decay readings |
| AdsrTimings.ScriptDecayMatchesApp | nds_adsr_timings.py:64-71 | the script's decay tick count of every entry equals the application's |
| AdsrTimings.ScriptReleaseNotShorter | nds_adsr_timings.py:73-80 | the script's release starts at 127, so it never counts fewer ticks than the application's release, and 127 more for decrement 1 |
| AdsrTimings.ScriptAttackBounded | nds_adsr_timings.py:56-61 | every script attack takes 1..127 ticks, and entry 0 takes 127 where the application answers infinity |

## Left out

- The iced user interface: `view`, `title`, `theme`, `scale_factor`, `button_text` and `main`. None of it computes a value the model needs.
- The result string of `calculate` and the text `CopyToClipboard` formats: `{:.0}`/`{:.3}` float formatting. `CopyToClipboard` is modelled as a message that changes no field; the closing check still runs.
- Clipboard access (`ClipboardProvider::new().unwrap()`, `get_contents`, `set_contents`): this is I/O.
  - The text read is a field of the paste message; a failed read is the empty text.
  - The panic of a missing clipboard provider is not modelled.
- `f32` and `f64` arithmetic: rounding, NaN, and infinities other than attack register 0's infinite time and the sustain search's `log10(0)` are not modelled.
  - Times and decibels are exact rationals.
  - `log10`, `parse::<f32>` and `f32::to_string` are parameters.
  - The sustain facts assume only that `log10` is increasing on the positive reals, and 0 at 1 where stated.
- AdsrApp.App.OnAttackChanged and its three siblings: for integer text, the target set from `s.parse::<f32>().unwrap()` is taken to be exactly the integer's value. This is how `f32` parses integers below 256.
- Panics: a register above 127 in register-to-time mode indexes past a table, and `127 - sustain` underflows. The model yields a `Panicked` reading there instead of stopping. The program would abort at that point.
- `print` in `nds_adsr_timings.py`: each loop returns the sequence of values it would print.
- GBA envelopes: src/main.rs has no code for a second console engine, so none is modelled.
- Three behaviours of the code worth stating, which the model follows.
  - The paste loop does not strip commas from pasted text.
  - A `!` token has no special meaning: like any unreadable token it repeats the previous token's text (`AdsrAppFacts.UnreadableTokenRepeatsPrevious`).
  - Because the searches compare strictly, searching for a register's own value does not return that register. This holds for all three searches.
    - Attack: `NdsSearch.AttackSearchOfExactTimeSkips`; one tick more returns a register of equal time (`NdsSearch.AttackSearchInvertsForward`).
    - Decay and release: `NdsSearch.DecaySearchOfExactTime` returns r + 1; one tick more returns r (`NdsSearch.DecaySearchRoundTrip`).
    - Sustain: `NdsSearch.SustainSearchOfExactAttenuation` returns r + 1.
