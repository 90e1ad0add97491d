/** The converter's application state and its message handler (`App` and
    `App::update`): four input fields, one per envelope phase, each with its
    register, its target value, its text and its last result, and one mode
    flag that says whether the last calculation translated times into
    registers (`to_nds`) or registers into times.

    The pure functions below describe one step of the handler on an
    `AppState` value; the class `App` is the stateful program, whose methods
    are proved to perform exactly those steps. */
module AdsrApp {
  import opened NdsTables
  import opened NdsEnvelope
  import opened NdsSearch
  import opened AdsrText

  /** The `f64` a calculation stores: infinity for attack register 0, a
      number otherwise. A register above 127 makes the source index past the
      end of a table and panic; the model records that outcome as
      `Panicked` instead of stopping. */
  datatype Reading = Infinite | Finite(value: real) | Panicked

  datatype Phase = Attack | Decay | Sustain | Release

  /** The messages of the form. The clipboard text a paste reads is carried
      by the message. */
  datatype Message =
    | CalculatePressed
    | AttackChanged(text: string)
    | DecayChanged(text: string)
    | SustainChanged(text: string)
    | ReleaseChanged(text: string)
    | CopyToClipboard
    | PasteFromClipboard(place: int, clipboard: string)

  /** The floating-point services the handler calls: `str::parse::<f32>`,
      `f32::to_string` and `f64::log10`. */
  datatype FloatLib = FloatLib(parseF32: string -> Option<real>, showF32: real -> string, log10: real -> real)

  /** One input field: `attack`, `attack_f`, `attack_input`, `attack_result`
      and their counterparts for the other phases. */
  datatype Field = Field(register: u8, target: real, input: string, result: Reading)

  datatype AppState = AppState(attack: Field, decay: Field, sustain: Field, release: Field, toNds: bool)

  // ---------------------------------------------------------------------------
  // The four calculations.

  /** `calculate_attack`: the register search for a target time, or the time
      of the register (infinite for register 0). */
  function AttackReading(tables: EnvelopeTables, toNds: bool, register: u8, target: real): (r: Reading)
    requires Shaped(tables)
    ensures r == Infinite <==> !toNds && register == 0
    ensures r == Panicked <==> !toNds && register as int >= TableSize
    ensures toNds ==> r.Finite? && 1.0 <= r.value <= SearchLimit as real && r.value.Floor as real == r.value
    ensures !toNds && r.Finite? ==> r.value > 0.0
  {
    if toNds then Finite(AttackSearch(tables, target) as real)
    else if register == 0 then Infinite
    else if register as int >= TableSize then Panicked
    else Finite(Seconds(AttackSteps(tables, register as int)))
  }

  /** `calculate_decay`, and `calculate_release`, which does the same with
      the release register and target and the same decay table. */
  function DecayReading(tables: EnvelopeTables, toNds: bool, register: u8, target: real): (r: Reading)
    requires Shaped(tables)
    ensures r != Infinite
    ensures r == Panicked <==> !toNds && register as int >= TableSize
    ensures toNds ==> r.Finite? && 1.0 <= r.value <= SearchLimit as real && r.value.Floor as real == r.value
    ensures !toNds && r.Finite? ==> r.value > 0.0
  {
    if toNds then Finite(DecaySearch(tables, target) as real)
    else if register as int >= TableSize then Panicked
    else Finite(Seconds(DecaySteps(tables, register as int)))
  }

  /** `calculate_sustain`: the register search for an attenuation, or the
      attenuation of the register in decibels (0 for register 0). */
  function SustainReading(tables: EnvelopeTables, toNds: bool, register: u8, target: real, log10: real -> real): (r: Reading)
    requires Shaped(tables)
    ensures r != Infinite
    ensures r == Panicked <==> !toNds && register as int >= TableSize
    ensures toNds ==> r.Finite? && 1.0 <= r.value <= SearchLimit as real && r.value.Floor as real == r.value
    ensures !toNds && register == 0 ==> r == Finite(0.0)
    ensures !toNds && r.Finite? ==> r.value >= 0.0
  {
    if toNds then Finite(SustainSearch(tables, target, log10) as real)
    else if register == 0 then Finite(0.0)
    else if register as int >= TableSize then Panicked
    else Finite(SustainAttenuation(tables, register as int, log10))
  }

  /** `calculate`: all four results in one mode; nothing else changes. */
  function Calculated(tables: EnvelopeTables, s: AppState, toNds: bool, log10: real -> real): (t: AppState)
    requires Shaped(tables)
    ensures t.toNds == s.toNds
    ensures forall p :: FieldOf(t, p).(result := FieldOf(s, p).result) == FieldOf(s, p)
  {
    s.(attack := s.attack.(result := AttackReading(tables, toNds, s.attack.register, s.attack.target)),
       decay := s.decay.(result := DecayReading(tables, toNds, s.decay.register, s.decay.target)),
       sustain := s.sustain.(result := SustainReading(tables, toNds, s.sustain.register, s.sustain.target, log10)),
       release := s.release.(result := DecayReading(tables, toNds, s.release.register, s.release.target)))
  }

  // ---------------------------------------------------------------------------
  // One step of `update`.

  function FieldOf(s: AppState, p: Phase): Field
  {
    match p
    case Attack => s.attack
    case Decay => s.decay
    case Sustain => s.sustain
    case Release => s.release
  }

  function WithField(s: AppState, p: Phase, f: Field): AppState
  {
    match p
    case Attack => s.(attack := f)
    case Decay => s.(decay := f)
    case Sustain => s.(sustain := f)
    case Release => s.(release := f)
  }

  /** The field handler of `AttackChanged` and its three siblings. Integer
      text sets the register and the target to its value; any other text
      sets the register to 0, the target to its `f32` value (0 if it has
      none) and switches to register search. */
  function ChangeField(s: AppState, p: Phase, text: string, lib: FloatLib): (t: AppState)
    ensures forall q :: q != p ==> FieldOf(t, q) == FieldOf(s, q)
    ensures FieldOf(t, p).input == text && FieldOf(t, p).result == FieldOf(s, p).result
    ensures ParseU8(text).Some? ==>
      FieldOf(t, p).register == ParseU8(text).value
      && FieldOf(t, p).target == ParseU8(text).value as real && t.toNds == s.toNds
    ensures ParseU8(text).None? ==> FieldOf(t, p).register == 0 && t.toNds
  {
    var f := FieldOf(s, p);
    match ParseU8(text)
    case Some(v) => WithField(s, p, f.(register := v, target := v as real, input := text))
    case None =>
      var target := match lib.parseF32(text) case Some(x) => x case None => 0.0;
      WithField(s, p, f.(register := 0, target := target, input := text)).(toNds := true)
  }

  predicate AllInputsInt(s: AppState)
  {
    StringIsInt(s.attack.input) && StringIsInt(s.decay.input)
    && StringIsInt(s.sustain.input) && StringIsInt(s.release.input)
  }

  /** The check at the end of every `update`: when all four texts are
      integers, register search is switched off. */
  function Settled(s: AppState): (t: AppState)
    ensures t.(toNds := s.toNds) == s
    ensures AllInputsInt(s) ==> !t.toNds
    ensures !AllInputsInt(s) ==> t.toNds == s.toNds
  {
    if AllInputsInt(s) then s.(toNds := false) else s
  }

  /** `!x` on a `u8` is the bitwise complement, which is `255 - x`. */
  function Complement(x: u8): u8
  {
    255 - x
  }

  /** `!x == 0` holds of 255 only, so a register of 255 anywhere forces the
      register-to-time direction. */
  function ForcesForward(s: AppState): (b: bool)
    ensures b <==> (s.attack.register == 255 || s.decay.register == 255
      || s.sustain.register == 255 || s.release.register == 255)
  {
    Complement(s.attack.register) == 0 || Complement(s.decay.register) == 0
    || Complement(s.sustain.register) == 0 || Complement(s.release.register) == 0
  }

  /** The text a pasted token contributes: its `u8` value printed again, or
      else its `f32` value printed again, or else the text of the previous
      token (the empty text before the first). */
  function PasteText(token: string, previous: string, lib: FloatLib): (t: string)
    ensures ParseU8(token).Some? ==> StringIsInt(t) && ParseU8(t) == ParseU8(token)
    ensures ParseU8(token).None? && lib.parseF32(token).Some? ==> t == lib.showF32(lib.parseF32(token).value)
    ensures ParseU8(token).None? && lib.parseF32(token).None? ==> t == previous
  {
    match ParseU8(token)
    case Some(v) =>
      U8RoundTrip(v);
      U8ToString(v)
    case None =>
      match lib.parseF32(token)
      case Some(x) => lib.showF32(x)
      case None => previous
  }

  function PhaseAt(count: int): Phase
    requires 0 <= count <= 3
  {
    if count == 0 then Attack else if count == 1 then Decay else if count == 2 then Sustain else Release
  }

  /** The token loop of `PasteFromClipboard`: token by token, the text is
      handed to the field at position `count` as if typed there (the nested
      `update` settles the mode after each one), until the tokens run out or
      the position passes the release field. */
  function PasteTokens(s: AppState, tokens: seq<string>, count: int, num: string, lib: FloatLib): (t: AppState)
    ensures tokens == [] || count < 0 || count > 3 ==> t == s
    ensures tokens != [] && 0 <= count <= 3 && AllInputsInt(t) ==> !t.toNds
    decreases |tokens|
  {
    if tokens == [] then s
    else
      var text := PasteText(tokens[0], num, lib);
      if 0 <= count <= 3 then
        PasteTokens(Settled(ChangeField(s, PhaseAt(count), text, lib)), tokens[1..], count + 1, text, lib)
      else s
  }

  /** The message the paste loop hands to the field of phase `p`. */
  function ChangedMessage(p: Phase, text: string): Message
  {
    match p
    case Attack => AttackChanged(text)
    case Decay => DecayChanged(text)
    case Sustain => SustainChanged(text)
    case Release => ReleaseChanged(text)
  }

  /** `Sandbox::update` on the state. */
  function Step(tables: EnvelopeTables, s: AppState, msg: Message, lib: FloatLib): (t: AppState)
    requires Shaped(tables)
    ensures AllInputsInt(t) ==> !t.toNds
    ensures msg == CopyToClipboard ==> t.(toNds := s.toNds) == s
  {
    match msg
    case CalculatePressed =>
      var mode := if ForcesForward(s) then false else s.toNds;
      Settled(Calculated(tables, s.(toNds := mode), mode, lib.log10))
    case AttackChanged(text) => Settled(ChangeField(s, Attack, text, lib))
    case DecayChanged(text) => Settled(ChangeField(s, Decay, text, lib))
    case SustainChanged(text) => Settled(ChangeField(s, Sustain, text, lib))
    case ReleaseChanged(text) => Settled(ChangeField(s, Release, text, lib))
    case CopyToClipboard => Settled(s)
    case PasteFromClipboard(place, content) =>
      Settled(if content == [] then s else PasteTokens(s, Tokens(content), place, "", lib))
  }

  /** One turn of the paste loop: the text is written into the field at
      position `count` and then handled as a change message of that field. */
  lemma PasteTokensTurn(tables: EnvelopeTables, s: AppState, tokens: seq<string>, count: int, num: string, lib: FloatLib)
    requires Shaped(tables) && tokens != [] && 0 <= count <= 3
    ensures var text := PasteText(tokens[0], num, lib);
      var p := PhaseAt(count);
      PasteTokens(s, tokens, count, num, lib)
        == PasteTokens(Step(tables, WithField(s, p, FieldOf(s, p).(input := text)), ChangedMessage(p, text), lib),
                       tokens[1..], count + 1, text, lib)
  {
    var text := PasteText(tokens[0], num, lib);
    var p := PhaseAt(count);
    var w := WithField(s, p, FieldOf(s, p).(input := text));
    assert ChangeField(w, p, text, lib) == ChangeField(s, p, text, lib);
    assert Step(tables, w, ChangedMessage(p, text), lib) == Settled(ChangeField(w, p, text, lib));
  }

  /** The state `App::new` builds. */
  function Initial(): (t: AppState)
    ensures !t.toNds && forall p :: FieldOf(t, p) == Field(127, 0.0, "", Finite(0.0))
  {
    var f := Field(127, 0.0, "", Finite(0.0));
    AppState(f, f, f, f, false)
  }

  // ---------------------------------------------------------------------------
  // The application object.

  class App {
    const attackTable: seq<int>
    const decayTable: seq<int>
    const sustainTable: seq<int>
    var attack: u8
    var attackF: real
    var attackInput: string
    var attackResult: Reading
    var decay: u8
    var decayF: real
    var decayInput: string
    var decayResult: Reading
    var sustain: u8
    var sustainF: real
    var sustainInput: string
    var sustainResult: Reading
    var release: u8
    var releaseF: real
    var releaseInput: string
    var releaseResult: Reading
    var toNds: bool

    ghost function Tables(): EnvelopeTables
    {
      EnvelopeTables(attackTable, decayTable, sustainTable)
    }

    ghost predicate Valid()
    {
      Shaped(Tables())
    }

    ghost function State(): AppState
      reads this
    {
      AppState(Field(attack, attackF, attackInput, attackResult),
               Field(decay, decayF, decayInput, decayResult),
               Field(sustain, sustainF, sustainInput, sustainResult),
               Field(release, releaseF, releaseInput, releaseResult),
               toNds)
    }

    /** `App::new`: the NDS tables, every register 127, every text empty. */
    constructor ()
      ensures Valid() && Tables() == NdsEnvelopeTables
      ensures State() == Initial()
    {
      attackTable, decayTable, sustainTable := AttackTable, DecayTable, SustainTable;
      attack, attackF, attackInput, attackResult := 127, 0.0, "", Finite(0.0);
      decay, decayF, decayInput, decayResult := 127, 0.0, "", Finite(0.0);
      sustain, sustainF, sustainInput, sustainResult := 127, 0.0, "", Finite(0.0);
      release, releaseF, releaseInput, releaseResult := 127, 0.0, "", Finite(0.0);
      toNds := false;
      NdsTablesShaped();
    }

    /** `calculate_attack`. */
    method CalculateAttack(toNds: bool) returns (r: Reading)
      requires Valid()
      ensures r == AttackReading(Tables(), toNds, attack, attackF)
    {
      AttackBounds(Tables());
      var steps: nat := 0;
      var vel := ZeroPoint;
      if !toNds {
        if attack != 0 {
          if attack as int >= |attackTable| {
            return Panicked;
          }
          ghost var t := attackTable[attack];
          assert 0 <= t <= 254;
          ghost var total := AttackStepsFrom(t, vel);
          while vel < 0
            invariant ZeroPoint <= vel <= 0
            invariant steps + AttackStepsFrom(t, vel) == total
            decreases -vel
          {
            steps := steps + 1;
            AttackProductFitsI32(t, vel);
            AttackStepRises(t, vel);
            vel := TruncDiv(attackTable[attack] * vel, 255);
          }
          assert total == AttackSteps(Tables(), attack as int);
          return Finite(Seconds(steps));
        } else {
          return Infinite;
        }
      } else {
        for i := 0 to 127
          invariant steps == 0 && vel == ZeroPoint
          invariant forall j :: 1 <= j < i ==> attackF <= Seconds(AttackSteps(Tables(), j))
        {
          if i != 0 {
            ghost var t := attackTable[i];
            assert 0 <= t <= 254;
            ghost var total := AttackStepsFrom(t, vel);
            while vel < 0
              invariant ZeroPoint <= vel <= 0
              invariant steps + AttackStepsFrom(t, vel) == total
              decreases -vel
            {
              steps := steps + 1;
              AttackProductFitsI32(t, vel);
              AttackStepRises(t, vel);
              vel := TruncDiv(attackTable[i] * vel, 255);
            }
            assert total == AttackSteps(Tables(), i);
            if Seconds(steps) < attackF {
              AttackSearchIsFirst(Tables(), attackF, i);
              return Finite(i as real);
            }
          }
          steps := 0;
          vel := ZeroPoint;
        }
        AttackSearchIsFirst(Tables(), attackF, 127);
        return Finite(127.0);
      }
    }

    /** `calculate_decay`. */
    method CalculateDecay(toNds: bool) returns (r: Reading)
      requires Valid()
      ensures r == DecayReading(Tables(), toNds, decay, decayF)
    {
      r := DecrementTicks(toNds, decay, decayF);
    }

    /** `calculate_release`: the decay loop with the release register and
      target. */
    method CalculateRelease(toNds: bool) returns (r: Reading)
      requires Valid()
      ensures r == DecayReading(Tables(), toNds, release, releaseF)
    {
      r := DecrementTicks(toNds, release, releaseF);
    }

    /** The loop shared by `calculate_decay` and `calculate_release`: the
      decrement of the register is subtracted from 0 until the zero point is
      reached, or, searching, the first register counting fewer seconds
      than the target is returned. */
    method DecrementTicks(toNds: bool, register: u8, target: real) returns (r: Reading)
      requires Valid()
      ensures r == DecayReading(Tables(), toNds, register, target)
    {
      DecayBounds(Tables());
      var steps: nat := 0;
      var vel := 0;
      if !toNds {
        if register as int >= |decayTable| {
          return Panicked;
        }
        var d := decayTable[register];
        while vel > ZeroPoint
          invariant vel == -(steps * d)
          invariant steps == 0 || (steps - 1) * d < -ZeroPoint
          decreases vel - ZeroPoint
        {
          assert (steps + 1) * d == steps * d + d;
          steps := steps + 1;
          vel := vel - decayTable[register];
        }
        CeilDivUnique(-ZeroPoint, d, steps);
        return Finite(Seconds(steps));
      } else {
        for i := 0 to 127
          invariant steps == 0 && vel == 0
          invariant forall j :: 1 <= j < i ==> target <= Seconds(DecaySteps(Tables(), j))
        {
          if i != 0 {
            var d := decayTable[i];
            while vel > ZeroPoint
              invariant vel == -(steps * d)
              invariant steps == 0 || (steps - 1) * d < -ZeroPoint
              decreases vel - ZeroPoint
            {
              assert (steps + 1) * d == steps * d + d;
              steps := steps + 1;
              vel := vel - decayTable[i];
            }
            CeilDivUnique(-ZeroPoint, d, steps);
            if Seconds(steps) < target {
              DecaySearchIsFirst(Tables(), target, i);
              return Finite(i as real);
            }
          }
          steps := 0;
          vel := 0;
        }
        DecaySearchIsFirst(Tables(), target, 127);
        return Finite(127.0);
      }
    }

    /** `calculate_sustain`. */
    method CalculateSustain(toNds: bool, log10: real -> real) returns (r: Reading)
      requires Valid()
      ensures r == SustainReading(Tables(), toNds, sustain, sustainF, log10)
    {
      var zeroPoint := ZeroPoint as real;
      if !toNds {
        if sustain == 0 {
          return Finite(0.0);
        }
        if sustain as int >= TableSize {
          return Panicked;
        }
        var sus := sustainTable[127 - sustain] as real;
        var amplitude := sus / zeroPoint;
        var decibels := 20.0 * log10(RealAbs(amplitude));
        return Finite(RealAbs(decibels));
      } else {
        for i := 0 to 127
          invariant forall j :: 0 <= j < i ==> !SustainBeats(Tables(), sustainF, log10, j)
        {
          assert i != 127;
          if i != 127 {
            var sus := sustainTable[127 - i] as real;
            var amplitude := sus / zeroPoint;
            var decibels := if amplitude == 0.0 then MinusInfinity else Db(20.0 * log10(RealAbs(amplitude)));
            assert amplitude == SustainAmplitude(Tables(), i);
            if Below(-sustainF, decibels) {
              SustainSearchIsFirst(Tables(), sustainF, log10, i);
              return Finite(i as real);
            }
          }
        }
        SustainSearchIsFirst(Tables(), sustainF, log10, 127);
        return Finite(127.0);
      }
    }

    /** `calculate`: the four results in one mode. */
    method Calculate(toNds: bool, log10: real -> real)
      requires Valid()
      modifies this
      ensures State() == Calculated(Tables(), old(State()), toNds, log10)
    {
      var a := CalculateAttack(toNds);
      var d := CalculateDecay(toNds);
      var u := CalculateSustain(toNds, log10);
      var r := CalculateRelease(toNds);
      attackResult, decayResult, sustainResult, releaseResult := a, d, u, r;
    }

    /** `Sandbox::update`. */
    method Update(msg: Message, lib: FloatLib)
      requires Valid()
      modifies this
      ensures State() == Step(Tables(), old(State()), msg, lib)
      decreases if msg.PasteFromClipboard? then 1 else 0, 2
    {
      match msg {
        case CalculatePressed => OnCalculatePressed(lib);
        case AttackChanged(s) => OnAttackChanged(s, lib);
        case DecayChanged(s) => OnDecayChanged(s, lib);
        case SustainChanged(s) => OnSustainChanged(s, lib);
        case ReleaseChanged(s) => OnReleaseChanged(s, lib);
        case CopyToClipboard =>
        case PasteFromClipboard(place, content) => Paste(place, content, lib);
      }
      if StringIsInt(attackInput) && StringIsInt(decayInput) && StringIsInt(sustainInput) && StringIsInt(releaseInput) {
        toNds := false;
      }
    }

    /** The `CalculatePressed` arm of `update`. */
    method OnCalculatePressed(lib: FloatLib)
      requires Valid()
      modifies this
      ensures var mode := if ForcesForward(old(State())) then false else old(toNds);
        State() == Calculated(Tables(), old(State()).(toNds := mode), mode, lib.log10)
    {
      if Complement(attack) == 0 || Complement(decay) == 0 || Complement(sustain) == 0 || Complement(release) == 0 {
        toNds := false;
      }
      Calculate(toNds, lib.log10);
    }

    /** The `AttackChanged` arm of `update`. */
    method OnAttackChanged(s: string, lib: FloatLib)
      modifies this
      ensures State() == ChangeField(old(State()), Attack, s, lib)
    {
      if StringIsInt(s) {
        attackInput := s;
        attackF := ParseU8(s).value as real;
        attack := ParseU8(s).value;
      } else {
        attackInput := s;
        toNds := true;
        attack := 0;
        attackF := match lib.parseF32(s) case Some(x) => x case None => 0.0;
      }
    }

    /** The `DecayChanged` arm of `update`. */
    method OnDecayChanged(s: string, lib: FloatLib)
      modifies this
      ensures State() == ChangeField(old(State()), Decay, s, lib)
    {
      if StringIsInt(s) {
        decayInput := s;
        decayF := ParseU8(s).value as real;
        decay := ParseU8(s).value;
      } else {
        decayInput := s;
        toNds := true;
        decay := 0;
        decayF := match lib.parseF32(s) case Some(x) => x case None => 0.0;
      }
    }

    /** The `SustainChanged` arm of `update`. */
    method OnSustainChanged(s: string, lib: FloatLib)
      modifies this
      ensures State() == ChangeField(old(State()), Sustain, s, lib)
    {
      if StringIsInt(s) {
        sustainInput := s;
        sustainF := ParseU8(s).value as real;
        sustain := ParseU8(s).value;
      } else {
        sustainInput := s;
        toNds := true;
        sustain := 0;
        sustainF := match lib.parseF32(s) case Some(x) => x case None => 0.0;
      }
    }

    /** The `ReleaseChanged` arm of `update`. */
    method OnReleaseChanged(s: string, lib: FloatLib)
      modifies this
      ensures State() == ChangeField(old(State()), Release, s, lib)
    {
      if StringIsInt(s) {
        releaseInput := s;
        releaseF := ParseU8(s).value as real;
        release := ParseU8(s).value;
      } else {
        releaseInput := s;
        toNds := true;
        release := 0;
        releaseF := match lib.parseF32(s) case Some(x) => x case None => 0.0;
      }
    }

    /** The `PasteFromClipboard` arm of `update`, up to the closing check:
      the clipboard text is split into tokens, which are handed to the
      fields from position `place` on as if typed there. */
    method Paste(place: int, content: string, lib: FloatLib)
      requires Valid()
      modifies this
      ensures State() == if content == [] then old(State()) else PasteTokens(old(State()), Tokens(content), place, "", lib)
      decreases 1, 1
    {
      if content != [] {
        var tokens := Tokens(content);
        var count := place;
        var num := "";
        var k := 0;
        while k < |tokens|
          invariant 0 <= k <= |tokens| && count == place + k
          invariant PasteTokens(old(State()), tokens, place, "", lib)
            == PasteTokens(State(), tokens[k..], count, num, lib)
        {
          ghost var before, previous := State(), num;
          num := PasteText(tokens[k], num, lib);
          assert tokens[k..][1..] == tokens[k + 1..];
          if 0 <= count <= 3 {
            HandToField(count, num, lib);
          } else {
            break;
          }
          PasteTokensTurn(Tables(), before, tokens[k..], count, previous, lib);
          count := count + 1;
          k := k + 1;
        }
      }
    }

    /** The `match count` of the paste loop for a position in 0..3: the text
      is written into that field and handed to `update` as a change of it. */
    method HandToField(count: int, num: string, lib: FloatLib)
      requires Valid() && 0 <= count <= 3
      modifies this
      ensures var p := PhaseAt(count);
        State() == Step(Tables(), WithField(old(State()), p, FieldOf(old(State()), p).(input := num)), ChangedMessage(p, num), lib)
      decreases 1, 0
    {
      ghost var p := PhaseAt(count);
      ghost var written := WithField(old(State()), p, FieldOf(old(State()), p).(input := num));
      if count == 0 {
        attackInput := num;
        assert State() == written;
        Update(AttackChanged(num), lib);
      } else if count == 1 {
        decayInput := num;
        assert State() == written;
        Update(DecayChanged(num), lib);
      } else if count == 2 {
        sustainInput := num;
        assert State() == written;
        Update(SustainChanged(num), lib);
      } else {
        releaseInput := num;
        assert State() == written;
        Update(ReleaseChanged(num), lib);
      }
    }
  }
}

/** Properties of the message handler. */
module AdsrAppFacts {
  import opened NdsTables
  import opened NdsEnvelope
  import opened NdsSearch
  import opened AdsrText
  import opened AdsrApp

  /** A field whose text is an integer holds that integer as its register
      and as its target. */
  ghost predicate FieldAgrees(f: Field)
  {
    StringIsInt(f.input) ==> f.register == ParseU8(f.input).value && f.target == f.register as real
  }

  /** What every state the handler produces satisfies: each integer text
      agrees with its field, and when all four texts are integers the mode
      is register-to-time. */
  ghost predicate FieldsAgree(s: AppState)
  {
    FieldAgrees(s.attack) && FieldAgrees(s.decay) && FieldAgrees(s.sustain) && FieldAgrees(s.release)
  }

  ghost predicate Consistent(s: AppState)
  {
    FieldsAgree(s) && (AllInputsInt(s) ==> !s.toNds)
  }

  lemma ChangeFieldAgrees(s: AppState, p: Phase, text: string, lib: FloatLib)
    requires FieldsAgree(s)
    ensures FieldsAgree(ChangeField(s, p, text, lib))
  {
  }

  /** The closing check gives the mode half of consistency. */
  lemma SettledConsistent(s: AppState)
    requires FieldsAgree(s)
    ensures Consistent(Settled(s))
  {
  }

  lemma CalculatedAgrees(tables: EnvelopeTables, s: AppState, toNds: bool, log10: real -> real)
    requires Shaped(tables) && FieldsAgree(s)
    ensures FieldsAgree(Calculated(tables, s, toNds, log10))
  {
  }

  lemma {:induction false} PasteTokensAgree(s: AppState, tokens: seq<string>, count: int, num: string, lib: FloatLib)
    requires FieldsAgree(s)
    ensures FieldsAgree(PasteTokens(s, tokens, count, num, lib))
    decreases |tokens|
  {
    if tokens != [] && 0 <= count <= 3 {
      var text := PasteText(tokens[0], num, lib);
      var changed := ChangeField(s, PhaseAt(count), text, lib);
      ChangeFieldAgrees(s, PhaseAt(count), text, lib);
      SettledConsistent(changed);
      PasteTokensAgree(Settled(changed), tokens[1..], count + 1, text, lib);
    }
  }

  /** The state `App::new` builds is consistent, and every message keeps
      the state consistent. */
  lemma InitialConsistent()
    ensures !StringIsInt("") && !Initial().toNds
    ensures Consistent(Initial())
  {
    assert !StringIsInt("");
  }

  lemma StepKeepsConsistent(tables: EnvelopeTables, s: AppState, msg: Message, lib: FloatLib)
    requires Shaped(tables) && Consistent(s)
    ensures Consistent(Step(tables, s, msg, lib))
  {
    match msg
    case CalculatePressed =>
      var mode := if ForcesForward(s) then false else s.toNds;
      CalculatedAgrees(tables, s.(toNds := mode), mode, lib.log10);
      SettledConsistent(Calculated(tables, s.(toNds := mode), mode, lib.log10));
    case AttackChanged(text) =>
      ChangeFieldAgrees(s, Attack, text, lib);
      SettledConsistent(ChangeField(s, Attack, text, lib));
    case DecayChanged(text) =>
      ChangeFieldAgrees(s, Decay, text, lib);
      SettledConsistent(ChangeField(s, Decay, text, lib));
    case SustainChanged(text) =>
      ChangeFieldAgrees(s, Sustain, text, lib);
      SettledConsistent(ChangeField(s, Sustain, text, lib));
    case ReleaseChanged(text) =>
      ChangeFieldAgrees(s, Release, text, lib);
      SettledConsistent(ChangeField(s, Release, text, lib));
    case CopyToClipboard =>
      SettledConsistent(s);
    case PasteFromClipboard(place, content) =>
      if content != [] {
        PasteTokensAgree(s, Tokens(content), place, "", lib);
        SettledConsistent(PasteTokens(s, Tokens(content), place, "", lib));
      } else {
        SettledConsistent(s);
      }
  }

  // ---------------------------------------------------------------------------
  // Typing into a field.

  /** A change message rewrites its own field only: integer text sets the
      register and the target to its value; any other text sets the
      register to 0, the target to its `f32` value or 0, and selects
      register search. The mode is left to the closing check otherwise. */
  lemma ChangedFieldEffect(tables: EnvelopeTables, s: AppState, p: Phase, text: string, lib: FloatLib)
    requires Shaped(tables)
    ensures var t := Step(tables, s, ChangedMessage(p, text), lib);
      var f := FieldOf(t, p);
      && f.input == text && f.result == FieldOf(s, p).result
      && (StringIsInt(text) ==> f.register == ParseU8(text).value && f.target == f.register as real
                                && t.toNds == (s.toNds && !AllInputsInt(t)))
      && (!StringIsInt(text) ==> f.register == 0 && t.toNds
                                 && f.target == match lib.parseF32(text) case Some(x) => x case None => 0.0)
  {
  }

  /** A change message leaves the other three fields as they were. */
  lemma ChangedFieldKeepsOthers(tables: EnvelopeTables, s: AppState, p: Phase, text: string, lib: FloatLib)
    requires Shaped(tables)
    ensures var t := Step(tables, s, ChangedMessage(p, text), lib);
      forall q :: q != p ==> FieldOf(t, q) == FieldOf(s, q)
  {
  }

  // ---------------------------------------------------------------------------
  // Pressing the button.

  predicate SameButResult(f: Field, g: Field)
  {
    f.register == g.register && f.target == g.target && f.input == g.input
  }

  /** `CalculatePressed` changes only the results and the mode: the texts,
      registers and targets stay, and register search stays selected only
      if it was, no register is 255 and not all texts are integers. */
  lemma CalculatePressedKeepsFields(tables: EnvelopeTables, s: AppState, lib: FloatLib)
    requires Shaped(tables)
    ensures var t := Step(tables, s, CalculatePressed, lib);
      && SameButResult(t.attack, s.attack) && SameButResult(t.decay, s.decay)
      && SameButResult(t.sustain, s.sustain) && SameButResult(t.release, s.release)
      && t.toNds == (s.toNds && !ForcesForward(s) && !AllInputsInt(s))
  {
  }

  /** A register of 255 switches to register-to-time, and then its own
      calculation indexes past the table and panics. */
  lemma Register255Panics(tables: EnvelopeTables, s: AppState, lib: FloatLib)
    requires Shaped(tables)
    ensures var t := Step(tables, s, CalculatePressed, lib);
      && (s.attack.register == 255 ==> t.attack.result == Panicked)
      && (s.decay.register == 255 ==> t.decay.result == Panicked)
      && (s.sustain.register == 255 ==> t.sustain.result == Panicked)
      && (s.release.register == 255 ==> t.release.result == Panicked)
  {
  }

  /** A result of register search: a whole register number in 1..127. */
  predicate IsRegisterReading(r: Reading)
  {
    r.Finite? && exists k: int {:trigger k as real} :: 1 <= k <= 127 && r.value == k as real
  }

  /** In register search (no register of 255 forcing the other direction)
      every result is a register number in 1..127. */
  lemma SearchResultsAreRegisters(tables: EnvelopeTables, s: AppState, lib: FloatLib)
    requires Shaped(tables) && s.toNds && !ForcesForward(s)
    ensures var t := Step(tables, s, CalculatePressed, lib);
      IsRegisterReading(t.attack.result) && IsRegisterReading(t.decay.result)
      && IsRegisterReading(t.sustain.result) && IsRegisterReading(t.release.result)
  {
    var a := AttackSearch(tables, s.attack.target);
    var d := DecaySearch(tables, s.decay.target);
    var u := SustainSearch(tables, s.sustain.target, lib.log10);
    var r := DecaySearch(tables, s.release.target);
    assert a as real == (a as int) as real;
    assert d as real == (d as int) as real;
    assert u as real == (u as int) as real;
    assert r as real == (r as int) as real;
  }

  /** The field's text is a register number the tables cover, other than
      0. */
  predicate TypedRegister(f: Field)
  {
    StringIsInt(f.input) && 1 <= ParseU8(f.input).value as int <= 127
  }

  /** Typing four register numbers in 1..127 and pressing the button gives
      the four times and the attenuation of exactly those registers, in the
      register-to-time direction. */
  lemma TypedRegistersGiveTimes(tables: EnvelopeTables, s: AppState, lib: FloatLib)
    requires Shaped(tables) && Consistent(s)
    requires TypedRegister(s.attack) && TypedRegister(s.decay) && TypedRegister(s.sustain) && TypedRegister(s.release)
    ensures var t := Step(tables, s, CalculatePressed, lib);
      var a, d, u, r := ParseU8(s.attack.input).value as int, ParseU8(s.decay.input).value as int,
                        ParseU8(s.sustain.input).value as int, ParseU8(s.release.input).value as int;
      && !t.toNds
      && t.attack.result == Finite(Seconds(AttackSteps(tables, a)))
      && t.decay.result == Finite(Seconds(DecaySteps(tables, d)))
      && t.sustain.result == Finite(SustainAttenuation(tables, u, lib.log10))
      && t.release.result == Finite(Seconds(DecaySteps(tables, r)))
  {
  }

  // ---------------------------------------------------------------------------
  // Pasting.

  function Inputs(s: AppState): seq<string>
  {
    [s.attack.input, s.decay.input, s.sustain.input, s.release.input]
  }

  function PhaseIndex(p: Phase): (i: nat)
    ensures i < 4 && PhaseAt(i) == p
  {
    match p
    case Attack => 0
    case Decay => 1
    case Sustain => 2
    case Release => 3
  }

  /** The texts the paste loop hands out, one per token: each token's own
      normalised number, or the previous one's when it has none. */
  function CarriedTexts(tokens: seq<string>, previous: string, lib: FloatLib): (ts: seq<string>)
    ensures |ts| == |tokens|
  {
    if tokens == [] then []
    else
      var text := PasteText(tokens[0], previous, lib);
      [text] + CarriedTexts(tokens[1..], text, lib)
  }

  /** Every carried text is the paste rule applied to its own token and the
      text carried before it (`previous` before the first); a `u8` token's
      text parses back to the token's value. */
  lemma {:induction false} CarriedTextsRule(tokens: seq<string>, previous: string, lib: FloatLib)
    ensures var ts := CarriedTexts(tokens, previous, lib);
      forall k :: 0 <= k < |tokens| ==>
        ts[k] == PasteText(tokens[k], if k == 0 then previous else ts[k - 1], lib)
    ensures var ts := CarriedTexts(tokens, previous, lib);
      forall k :: 0 <= k < |tokens| && ParseU8(tokens[k]).Some? ==> ParseU8(ts[k]) == ParseU8(tokens[k])
    decreases |tokens|
  {
    if tokens != [] {
      var ts := CarriedTexts(tokens, previous, lib);
      var text := PasteText(tokens[0], previous, lib);
      var rest := CarriedTexts(tokens[1..], text, lib);
      CarriedTextsRule(tokens[1..], text, lib);
      assert ts == [text] + rest;
      forall k | 0 <= k < |tokens|
        ensures ts[k] == PasteText(tokens[k], if k == 0 then previous else ts[k - 1], lib)
      {
        if k == 0 {
          assert ts[0] == text;
        } else {
          var before := if k == 1 then text else rest[k - 2];
          assert rest[k - 1] == PasteText(tokens[1..][k - 1], before, lib);
          assert ts[k] == rest[k - 1] && tokens[k] == tokens[1..][k - 1];
          assert ts[k - 1] == before;
        }
      }
      forall k | 0 <= k < |tokens| && ParseU8(tokens[k]).Some?
        ensures ParseU8(ts[k]) == ParseU8(tokens[k])
      {
        var p := PasteText(tokens[k], if k == 0 then previous else ts[k - 1], lib);
      }
    }
  }

  lemma ChangeFieldInputs(s: AppState, c: nat, text: string, lib: FloatLib)
    requires c <= 3
    ensures Inputs(Settled(ChangeField(s, PhaseAt(c), text, lib))) == Inputs(s)[c := text]
  {
  }

  /** Writing `text` at position `c` and then `m - 1` texts after it is
      writing `[text] + rest`'s first `m` texts from `c` on. */
  lemma SpliceStep<T>(x: seq<T>, c: nat, text: T, rest: seq<T>, m: nat)
    requires c < |x| && 1 <= m <= |x| - c && m - 1 <= |rest|
    ensures x[c := text][..c + 1] + rest[..m - 1] + x[c := text][c + m..]
         == x[..c] + ([text] + rest)[..m] + x[c + m..]
  {
    assert x[c := text][..c + 1] == x[..c] + [text];
    assert x[c := text][c + m..] == x[c + m..];
    assert ([text] + rest)[..m] == [text] + rest[..m - 1];
  }

  /** From position `count` on, the fields receive the carried texts in
      order, as many as there are tokens and fields left; the fields before
      `count` and after the last one written keep their texts. */
  lemma {:induction false} PasteTokensInputs(s: AppState, tokens: seq<string>, count: nat, num: string, lib: FloatLib)
    requires count <= 4
    ensures var m := if |tokens| < 4 - count then |tokens| else 4 - count;
      Inputs(PasteTokens(s, tokens, count, num, lib))
        == Inputs(s)[..count] + CarriedTexts(tokens, num, lib)[..m] + Inputs(s)[count + m..]
    decreases |tokens|
  {
    var m := if |tokens| < 4 - count then |tokens| else 4 - count;
    if tokens != [] && count <= 3 {
      var text := PasteText(tokens[0], num, lib);
      var s' := Settled(ChangeField(s, PhaseAt(count), text, lib));
      var rest := CarriedTexts(tokens[1..], text, lib);
      ChangeFieldInputs(s, count, text, lib);
      PasteTokensInputs(s', tokens[1..], count + 1, text, lib);
      assert CarriedTexts(tokens, num, lib) == [text] + rest;
      SpliceStep(Inputs(s), count, text, rest, m);
    } else {
      assert m == 0;
    }
  }

  /** Pasting at a position in 0..3 fills the fields from that position on
      with the carried texts of the clipboard's tokens. */
  lemma PasteFillsFields(tables: EnvelopeTables, s: AppState, place: nat, content: string, lib: FloatLib)
    requires Shaped(tables) && place <= 3
    ensures var tokens := Tokens(content);
      var m := if |tokens| < 4 - place then |tokens| else 4 - place;
      Inputs(Step(tables, s, PasteFromClipboard(place, content), lib))
        == Inputs(s)[..place] + CarriedTexts(tokens, "", lib)[..m] + Inputs(s)[place + m..]
  {
    if content != [] {
      var pasted := PasteTokens(s, Tokens(content), place, "", lib);
      PasteTokensInputs(s, Tokens(content), place, "", lib);
      assert Step(tables, s, PasteFromClipboard(place, content), lib) == Settled(pasted);
      assert Inputs(Settled(pasted)) == Inputs(pasted);
    }
  }

  lemma ExampleNumbers()
    ensures ParseU8("10") == Some(10) && U8ToString(10) == "10"
    ensures ParseU8("30") == Some(30) && U8ToString(30) == "30"
    ensures ParseU8("40") == Some(40) && U8ToString(40) == "40"
    ensures ParseU8("!") == None
  {
    assert Decimal(1) == "1";
    assert Decimal(3) == "3";
    assert Decimal(4) == "4";
  }

  /** A token with neither a `u8` nor an `f32` value, such as `!`, is not
      skipped: it hands on the previous token's text again, so the four
      tokens `10 ! 30 40` fill the fields with 10, 10, 30 and 40. */
  lemma UnreadableTokenRepeatsPrevious(lib: FloatLib)
    requires lib.parseF32("!") == None
    ensures CarriedTexts(["10", "!", "30", "40"], "", lib) == ["10", "10", "30", "40"]
  {
    ExampleNumbers();
    assert CarriedTexts(["40"], "30", lib) == ["40"];
    assert ["30", "40"][1..] == ["40"];
    assert CarriedTexts(["30", "40"], "10", lib) == ["30", "40"];
    assert ["!", "30", "40"][1..] == ["30", "40"];
    assert CarriedTexts(["!", "30", "40"], "10", lib) == ["10", "30", "40"];
    assert ["10", "!", "30", "40"][1..] == ["!", "30", "40"];
  }

  /** A paste aimed outside the four fields writes nothing. */
  lemma PasteOutsideFieldsWritesNothing(tables: EnvelopeTables, s: AppState, place: int, content: string, lib: FloatLib)
    requires Shaped(tables) && (place < 0 || place > 3)
    ensures Step(tables, s, PasteFromClipboard(place, content), lib) == Settled(s)
  {
  }
}
