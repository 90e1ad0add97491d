/** The inverse direction of the converter: the `for i in 0..127_u8` loops of
    `calculate_attack`, `calculate_decay`, `calculate_sustain` and
    `calculate_release` that look for the first register whose simulated
    value beats a target. The range `0..127` excludes 127, so register 127
    is never simulated; it is the answer when no candidate qualifies.

    The searches are specification functions built on one scan, `FirstFrom`;
    the loops themselves are the methods of `AdsrApp.App`. */
module NdsSearch {
  import opened NdsTables
  import opened NdsEnvelope

  /** End of the candidate range, and the answer when nothing qualifies. */
  const SearchLimit: nat := 127

  /** The first candidate in `lo..126` that satisfies `p`, or 127. */
  function FirstFrom(p: nat -> bool, lo: nat): (r: nat)
    requires lo <= SearchLimit
    ensures lo <= r <= SearchLimit
    ensures forall j :: lo <= j < r ==> !p(j)
    ensures r < SearchLimit ==> p(r)
    decreases SearchLimit - lo
  {
    if lo == SearchLimit then SearchLimit
    else if p(lo) then lo
    else FirstFrom(p, lo + 1)
  }

  // ---------------------------------------------------------------------------
  // Attack, decay and release: the first register whose time is below the target.

  /** Candidate `i` of the attack search: `steps as f64 / TPS < attack_f`. */
  predicate AttackBeats(tables: EnvelopeTables, target: real, i: nat)
    requires Shaped(tables)
  {
    1 <= i < SearchLimit && Seconds(AttackSteps(tables, i)) < target
  }

  /** The register the attack search returns for a target time: the first
      register of 1..126 whose attack is faster than the target, or 127
      when none is. */
  function AttackSearch(tables: EnvelopeTables, target: real): (r: nat)
    requires Shaped(tables)
    ensures 1 <= r <= SearchLimit
    ensures forall j :: 1 <= j < r ==> target <= Seconds(AttackSteps(tables, j))
    ensures r < SearchLimit ==> Seconds(AttackSteps(tables, r)) < target
  {
    var p := (i: nat) => AttackBeats(tables, target, i);
    var r := FirstFrom(p, 1);
    assert forall j :: 1 <= j < r ==> target <= Seconds(AttackSteps(tables, j)) by {
      forall j | 1 <= j < r ensures target <= Seconds(AttackSteps(tables, j)) {
        assert !p(j);
      }
    }
    r
  }

  /** The three properties of `AttackSearch` determine it: a register that
      is preceded only by slower candidates and is itself faster (or is 127)
      is the search result. */
  lemma AttackSearchIsFirst(tables: EnvelopeTables, target: real, i: nat)
    requires Shaped(tables) && 1 <= i <= SearchLimit
    requires forall j :: 1 <= j < i ==> target <= Seconds(AttackSteps(tables, j))
    requires i < SearchLimit ==> Seconds(AttackSteps(tables, i)) < target
    ensures AttackSearch(tables, target) == i
  {
  }

  /** Because the attack time never grows with the register, the search
      result splits 1..126: a register is faster than the target exactly
      when it is at or above the result. */
  lemma AttackSearchThreshold(tables: EnvelopeTables, target: real)
    requires Shaped(tables)
    ensures forall j :: 1 <= j < SearchLimit ==>
      (Seconds(AttackSteps(tables, j)) < target <==> AttackSearch(tables, target) <= j)
  {
    var r := AttackSearch(tables, target);
    forall j | r <= j < SearchLimit
      ensures Seconds(AttackSteps(tables, j)) < target
    {
      AttackStepsNonIncreasing(tables, r, j);
      SecondsOrder(AttackSteps(tables, j), AttackSteps(tables, r));
    }
  }

  /** Candidate `i` of the decay and release searches. */
  predicate DecayBeats(tables: EnvelopeTables, target: real, i: nat)
    requires Shaped(tables)
  {
    1 <= i < SearchLimit && Seconds(DecaySteps(tables, i)) < target
  }

  /** The register the decay search (and, with the release target, the
      release search) returns: the first register of 1..126 whose decay
      time is below the target, or 127 when none is. */
  function DecaySearch(tables: EnvelopeTables, target: real): (r: nat)
    requires Shaped(tables)
    ensures 1 <= r <= SearchLimit
    ensures forall j :: 1 <= j < r ==> target <= Seconds(DecaySteps(tables, j))
    ensures r < SearchLimit ==> Seconds(DecaySteps(tables, r)) < target
  {
    var p := (i: nat) => DecayBeats(tables, target, i);
    var r := FirstFrom(p, 1);
    assert forall j :: 1 <= j < r ==> target <= Seconds(DecaySteps(tables, j)) by {
      forall j | 1 <= j < r ensures target <= Seconds(DecaySteps(tables, j)) {
        assert !p(j);
      }
    }
    r
  }

  /** The decay counterpart of `AttackSearchIsFirst`. */
  lemma DecaySearchIsFirst(tables: EnvelopeTables, target: real, i: nat)
    requires Shaped(tables) && 1 <= i <= SearchLimit
    requires forall j :: 1 <= j < i ==> target <= Seconds(DecaySteps(tables, j))
    requires i < SearchLimit ==> Seconds(DecaySteps(tables, i)) < target
    ensures DecaySearch(tables, target) == i
  {
  }

  /** The decay counterpart of `AttackSearchThreshold`. */
  lemma DecaySearchThreshold(tables: EnvelopeTables, target: real)
    requires Shaped(tables)
    ensures forall j :: 1 <= j < SearchLimit ==>
      (Seconds(DecaySteps(tables, j)) < target <==> DecaySearch(tables, target) <= j)
  {
    var r := DecaySearch(tables, target);
    forall j | r <= j < SearchLimit
      ensures Seconds(DecaySteps(tables, j)) < target
    {
      DecayStepsNonIncreasing(tables, r, j);
      SecondsOrder(DecaySteps(tables, j), DecaySteps(tables, r));
    }
  }

  /** Searching for one tick more than the time of register `r` finds a
      register no larger than `r` with exactly the same tick count; the
      search inverts the attack simulation up to registers of equal time. */
  lemma AttackSearchInvertsForward(tables: EnvelopeTables, r: nat)
    requires Shaped(tables) && 1 <= r < SearchLimit
    ensures var q := AttackSearch(tables, Seconds(AttackSteps(tables, r) + 1));
      q <= r && AttackSteps(tables, q) == AttackSteps(tables, r)
  {
    var q := AttackSearch(tables, Seconds(AttackSteps(tables, r) + 1));
    assert q <= r;
    AttackStepsNonIncreasing(tables, q, r);
  }

  /** Searching for exactly the time of register `r` overshoots: the strict
      comparison skips `r` and every register of equal time. */
  lemma AttackSearchOfExactTimeSkips(tables: EnvelopeTables, r: nat)
    requires Shaped(tables) && 1 <= r < SearchLimit
    ensures var q := AttackSearch(tables, Seconds(AttackSteps(tables, r)));
      r < q && (q < SearchLimit ==> AttackSteps(tables, q) < AttackSteps(tables, r))
  {
    var q := AttackSearch(tables, Seconds(AttackSteps(tables, r)));
    if q <= r {
      AttackStepsNonIncreasing(tables, q, r);
      SecondsOrder(AttackSteps(tables, r), AttackSteps(tables, q));
    }
    if q < SearchLimit {
      SecondsOrder(AttackSteps(tables, q), AttackSteps(tables, r));
    }
  }

  /** The decay counterpart of `AttackSearchInvertsForward`. */
  lemma DecaySearchInvertsForward(tables: EnvelopeTables, r: nat)
    requires Shaped(tables) && 1 <= r < SearchLimit
    ensures var q := DecaySearch(tables, Seconds(DecaySteps(tables, r) + 1));
      q <= r && DecaySteps(tables, q) == DecaySteps(tables, r)
  {
    var q := DecaySearch(tables, Seconds(DecaySteps(tables, r) + 1));
    assert q <= r;
    DecayStepsNonIncreasing(tables, q, r);
  }

  /** With wide decay gaps, as the converter's table has, the decay search
      inverts the simulation exactly: one tick more than the time of
      register `r` finds `r` itself. */
  lemma DecaySearchRoundTrip(tables: EnvelopeTables, r: nat)
    requires Shaped(tables) && WideGaps(tables.decay) && 1 <= r < SearchLimit
    ensures DecaySearch(tables, Seconds(DecaySteps(tables, r) + 1)) == r
  {
    DecaySearchInvertsForward(tables, r);
    var q := DecaySearch(tables, Seconds(DecaySteps(tables, r) + 1));
    if q < r {
      DecayStepsDecreasing(tables, q, r);
    }
  }

  /** On the converter's own tables, every decay (and release) register of
      1..126 is found again from one tick more than its time. */
  lemma NdsDecaySearchRoundTrip(r: nat)
    requires 1 <= r < SearchLimit
    ensures Shaped(NdsEnvelopeTables) && DecaySearch(NdsEnvelopeTables, Seconds(DecaySteps(NdsEnvelopeTables, r) + 1)) == r
  {
    NdsTablesShaped();
    DecayTableWideGaps();
    DecaySearchRoundTrip(NdsEnvelopeTables, r);
  }

  /** Searching for exactly the decay time of register `r` overshoots by
      exactly one register when the decay gaps are wide: the strict
      comparison skips `r`, and `r + 1` is strictly faster. */
  lemma DecaySearchOfExactTime(tables: EnvelopeTables, r: nat)
    requires Shaped(tables) && WideGaps(tables.decay) && 1 <= r < SearchLimit
    ensures DecaySearch(tables, Seconds(DecaySteps(tables, r))) == r + 1
  {
    var t := Seconds(DecaySteps(tables, r));
    forall j | 1 <= j < r + 1 ensures t <= Seconds(DecaySteps(tables, j)) {
      DecayStepsNonIncreasing(tables, j, r);
      SecondsOrder(DecaySteps(tables, r), DecaySteps(tables, j));
    }
    if r + 1 < SearchLimit {
      DecayStepsDecreasing(tables, r, r + 1);
      SecondsOrder(DecaySteps(tables, r + 1), DecaySteps(tables, r));
    }
    DecaySearchIsFirst(tables, t, r + 1);
  }

  /** Register 127 round-trips: its attack and decay times are the
      shortest of all, so searching for them finds no faster register and
      answers 127. */
  lemma LastRegisterRoundTrips(tables: EnvelopeTables)
    requires Shaped(tables)
    ensures AttackSearch(tables, Seconds(AttackSteps(tables, 127))) == 127
    ensures DecaySearch(tables, Seconds(DecaySteps(tables, 127))) == 127
  {
    var ta, td := Seconds(AttackSteps(tables, 127)), Seconds(DecaySteps(tables, 127));
    forall j | 1 <= j < SearchLimit ensures ta <= Seconds(AttackSteps(tables, j)) {
      AttackStepsNonIncreasing(tables, j, 127);
      SecondsOrder(AttackSteps(tables, 127), AttackSteps(tables, j));
    }
    forall j | 1 <= j < SearchLimit ensures td <= Seconds(DecaySteps(tables, j)) {
      DecayStepsNonIncreasing(tables, j, 127);
      SecondsOrder(DecaySteps(tables, 127), DecaySteps(tables, j));
    }
    AttackSearchIsFirst(tables, ta, 127);
    DecaySearchIsFirst(tables, td, 127);
  }

  // ---------------------------------------------------------------------------
  // Sustain: the first register whose level exceeds the negated target.

  /** A signed decibel value as `f64` arithmetic produces it:
      `20 * log10(|amplitude|)`, which is minus infinity for amplitude 0. */
  datatype Decibels = MinusInfinity | Db(value: real)

  function SignedDecibels(amplitude: real, log10: real -> real): (d: Decibels)
    ensures d.MinusInfinity? <==> amplitude == 0.0
  {
    if amplitude == 0.0 then MinusInfinity else Db(20.0 * log10(RealAbs(amplitude)))
  }

  /** `bound < d` in `f64`: nothing is below minus infinity. */
  predicate Below(bound: real, d: Decibels)
  {
    d.Db? && bound < d.value
  }

  /** Candidate `i` of the sustain search: `-sustain_f < decibels`. */
  predicate SustainBeats(tables: EnvelopeTables, target: real, log10: real -> real, i: nat)
    requires Shaped(tables)
  {
    i < SearchLimit && Below(-target, SignedDecibels(SustainAmplitude(tables, i), log10))
  }

  /** The register the sustain search returns. Candidate 0 reads the table's
      last level 0, whose decibel value is minus infinity, so it never
      qualifies and the result lies in 1..127: the first register whose
      level in decibels exceeds the negated target, or 127. */
  function SustainSearch(tables: EnvelopeTables, target: real, log10: real -> real): (r: nat)
    requires Shaped(tables)
    ensures 1 <= r <= SearchLimit
    ensures forall j :: 1 <= j < r ==> 20.0 * log10(SustainAmplitude(tables, j)) <= -target
    ensures r < SearchLimit ==> -target < 20.0 * log10(SustainAmplitude(tables, r))
  {
    var p := (i: nat) => SustainBeats(tables, target, log10, i);
    var r := FirstFrom(p, 0);
    assert !p(0);
    assert forall j :: 1 <= j < r ==> 20.0 * log10(SustainAmplitude(tables, j)) <= -target by {
      forall j | 1 <= j < r ensures 20.0 * log10(SustainAmplitude(tables, j)) <= -target {
        assert !p(j);
      }
    }
    r
  }

  /** The sustain search result is the first candidate that qualifies, or
      127: no other register satisfies both of its properties. */
  lemma SustainSearchIsFirst(tables: EnvelopeTables, target: real, log10: real -> real, i: nat)
    requires Shaped(tables) && i <= SearchLimit
    requires forall j :: 0 <= j < i ==> !SustainBeats(tables, target, log10, j)
    requires i < SearchLimit ==> SustainBeats(tables, target, log10, i)
    ensures SustainSearch(tables, target, log10) == i
  {
  }

  /** With an increasing logarithm that is 0 at 1, the attenuation of a
      sustain register is its amplitude's decibel value negated. */
  lemma SustainAttenuationIsNegatedDecibels(tables: EnvelopeTables, r: int, log10: real -> real)
    requires Shaped(tables) && IncreasingOnPositives(log10) && log10(1.0) == 0.0 && 1 <= r < TableSize
    ensures -SustainAttenuation(tables, r, log10) == 20.0 * log10(SustainAmplitude(tables, r))
  {
    var a := SustainAmplitude(tables, r);
    if r < 127 {
      SustainAmplitudeIncreasing(tables, r, 127);
      assert log10(a) < log10(1.0);
    }
  }

  /** Register 127 round-trips through the sustain search: its attenuation
      is 0, which no other register reaches, so the search answers 127. */
  lemma SustainLastRegisterRoundTrips(tables: EnvelopeTables, log10: real -> real)
    requires Shaped(tables) && IncreasingOnPositives(log10) && log10(1.0) == 0.0
    ensures SustainSearch(tables, SustainAttenuation(tables, 127, log10), log10) == 127
  {
    var t := SustainAttenuation(tables, 127, log10);
    forall j | 0 <= j < SearchLimit ensures !SustainBeats(tables, t, log10, j) {
      if 1 <= j {
        SustainAmplitudeIncreasing(tables, j, 127);
        assert log10(SustainAmplitude(tables, j)) < log10(1.0);
      }
    }
    SustainSearchIsFirst(tables, t, log10, 127);
  }

  /** Searching for exactly the attenuation of register `r` overshoots by
      one register: the strict comparison skips `r`, and `r + 1` holds a
      larger amplitude. */
  lemma SustainSearchOfExactAttenuation(tables: EnvelopeTables, r: nat, log10: real -> real)
    requires Shaped(tables) && IncreasingOnPositives(log10) && log10(1.0) == 0.0 && 1 <= r < SearchLimit
    ensures SustainSearch(tables, SustainAttenuation(tables, r, log10), log10) == r + 1
  {
    var t := SustainAttenuation(tables, r, log10);
    SustainAttenuationIsNegatedDecibels(tables, r, log10);
    var ar := SustainAmplitude(tables, r);
    forall j | 0 <= j < r + 1 ensures !SustainBeats(tables, t, log10, j) {
      if 1 <= j < r {
        SustainAmplitudeIncreasing(tables, j, r);
        assert log10(SustainAmplitude(tables, j)) < log10(ar);
      }
    }
    if r + 1 < SearchLimit {
      SustainAmplitudeIncreasing(tables, r, r + 1);
      assert log10(ar) < log10(SustainAmplitude(tables, r + 1));
    }
    SustainSearchIsFirst(tables, t, log10, r + 1);
  }

  /** With an increasing logarithm, a register qualifies exactly when it is
      at or above the sustain search result. */
  lemma SustainSearchThreshold(tables: EnvelopeTables, target: real, log10: real -> real)
    requires Shaped(tables) && IncreasingOnPositives(log10)
    ensures forall j :: 1 <= j < SearchLimit ==>
      (-target < 20.0 * log10(SustainAmplitude(tables, j)) <==> SustainSearch(tables, target, log10) <= j)
  {
    var r := SustainSearch(tables, target, log10);
    forall j | r < j < SearchLimit
      ensures -target < 20.0 * log10(SustainAmplitude(tables, j))
    {
      var a, b := SustainAmplitude(tables, r), SustainAmplitude(tables, j);
      SustainAmplitudeIncreasing(tables, r, j);
      assert 0.0 < a < b;
      assert log10(a) < log10(b);
    }
  }
}
