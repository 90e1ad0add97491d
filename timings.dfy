/** The companion script `nds_adsr_timings.py`, which prints the time of
    every entry of the three tables in table order: the attack time of each
    multiplier from velocity 127, the decay time of each decrement down to
    the first sustain level, and the release time of each decrement from
    velocity 127 down to the zero point. Printing is left out; each loop
    returns the sequence of values it prints. */
module AdsrTimings {
  import opened NdsTables
  import opened NdsEnvelope

  // The script's own copies of the tables, eight entries to a line.
  const ScriptAttackLine0: seq<int> := [255, 254, 253, 252, 251, 250, 249, 248]
  const ScriptAttackLine1: seq<int> := [247, 246, 245, 244, 243, 242, 241, 240]
  const ScriptAttackLine2: seq<int> := [239, 238, 237, 236, 235, 234, 233, 232]
  const ScriptAttackLine3: seq<int> := [231, 230, 229, 228, 227, 226, 225, 224]
  const ScriptAttackLine4: seq<int> := [223, 222, 221, 220, 219, 218, 217, 216]
  const ScriptAttackLine5: seq<int> := [215, 214, 213, 212, 211, 210, 209, 208]
  const ScriptAttackLine6: seq<int> := [207, 206, 205, 204, 203, 202, 201, 200]
  const ScriptAttackLine7: seq<int> := [199, 198, 197, 196, 195, 194, 193, 192]
  const ScriptAttackLine8: seq<int> := [191, 190, 189, 188, 187, 186, 185, 184]
  const ScriptAttackLine9: seq<int> := [183, 182, 181, 180, 179, 178, 177, 176]
  const ScriptAttackLine10: seq<int> := [175, 174, 173, 172, 171, 170, 169, 168]
  const ScriptAttackLine11: seq<int> := [167, 166, 165, 164, 163, 162, 161, 160]
  const ScriptAttackLine12: seq<int> := [159, 158, 157, 156, 155, 154, 153, 152]
  const ScriptAttackLine13: seq<int> := [151, 150, 149, 148, 147, 143, 137, 132]
  const ScriptAttackLine14: seq<int> := [127, 123, 116, 109, 100, 92, 84, 73]
  const ScriptAttackLine15: seq<int> := [63, 51, 38, 26, 14, 5, 1, 0]
  const ScriptAttackTable: seq<int> :=
    (ScriptAttackLine0 + ScriptAttackLine1) +
    (ScriptAttackLine2 + ScriptAttackLine3) +
    (ScriptAttackLine4 + ScriptAttackLine5) +
    (ScriptAttackLine6 + ScriptAttackLine7) +
    (ScriptAttackLine8 + ScriptAttackLine9) +
    (ScriptAttackLine10 + ScriptAttackLine11) +
    (ScriptAttackLine12 + ScriptAttackLine13) +
    (ScriptAttackLine14 + ScriptAttackLine15)

  const ScriptDecayLine0: seq<int> := [1, 3, 5, 7, 9, 11, 13, 15]
  const ScriptDecayLine1: seq<int> := [17, 19, 21, 23, 25, 27, 29, 31]
  const ScriptDecayLine2: seq<int> := [33, 35, 37, 39, 41, 43, 45, 47]
  const ScriptDecayLine3: seq<int> := [49, 51, 53, 55, 57, 59, 61, 63]
  const ScriptDecayLine4: seq<int> := [65, 67, 69, 71, 73, 75, 77, 79]
  const ScriptDecayLine5: seq<int> := [81, 83, 85, 87, 89, 91, 93, 95]
  const ScriptDecayLine6: seq<int> := [97, 99, 101, 102, 104, 105, 107, 108]
  const ScriptDecayLine7: seq<int> := [110, 111, 113, 115, 116, 118, 120, 122]
  const ScriptDecayLine8: seq<int> := [124, 126, 128, 130, 132, 135, 137, 140]
  const ScriptDecayLine9: seq<int> := [142, 145, 148, 151, 154, 157, 160, 163]
  const ScriptDecayLine10: seq<int> := [167, 171, 175, 179, 183, 187, 192, 197]
  const ScriptDecayLine11: seq<int> := [202, 208, 213, 219, 226, 233, 240, 248]
  const ScriptDecayLine12: seq<int> := [256, 265, 274, 284, 295, 307, 320, 334]
  const ScriptDecayLine13: seq<int> := [349, 366, 384, 404, 427, 452, 480, 512]
  const ScriptDecayLine14: seq<int> := [549, 591, 640, 698, 768, 853, 960, 1097]
  const ScriptDecayLine15: seq<int> := [1280, 1536, 1920, 2560, 3840, 7680, 15360, 65535]
  const ScriptDecayTable: seq<int> :=
    (ScriptDecayLine0 + ScriptDecayLine1) +
    (ScriptDecayLine2 + ScriptDecayLine3) +
    (ScriptDecayLine4 + ScriptDecayLine5) +
    (ScriptDecayLine6 + ScriptDecayLine7) +
    (ScriptDecayLine8 + ScriptDecayLine9) +
    (ScriptDecayLine10 + ScriptDecayLine11) +
    (ScriptDecayLine12 + ScriptDecayLine13) +
    (ScriptDecayLine14 + ScriptDecayLine15)

  const ScriptSustainLine0: seq<int> := [-92544, -92416, -92288, -83328, -76928, -71936, -67840, -64384]
  const ScriptSustainLine1: seq<int> := [-61440, -58880, -56576, -54400, -52480, -50688, -49024, -47488]
  const ScriptSustainLine2: seq<int> := [-46080, -44672, -43392, -42240, -41088, -40064, -39040, -38016]
  const ScriptSustainLine3: seq<int> := [-36992, -36096, -35328, -34432, -33664, -32896, -32128, -31360]
  const ScriptSustainLine4: seq<int> := [-30592, -29952, -29312, -28672, -28032, -27392, -26880, -26240]
  const ScriptSustainLine5: seq<int> := [-25728, -25088, -24576, -24064, -23552, -23040, -22528, -22144]
  const ScriptSustainLine6: seq<int> := [-21632, -21120, -20736, -20224, -19840, -19456, -19072, -18560]
  const ScriptSustainLine7: seq<int> := [-18176, -17792, -17408, -17024, -16640, -16256, -16000, -15616]
  const ScriptSustainLine8: seq<int> := [-15232, -14848, -14592, -14208, -13952, -13568, -13184, -12928]
  const ScriptSustainLine9: seq<int> := [-12672, -12288, -12032, -11648, -11392, -11136, -10880, -10496]
  const ScriptSustainLine10: seq<int> := [-10240, -9984, -9728, -9472, -9216, -8960, -8704, -8448]
  const ScriptSustainLine11: seq<int> := [-8192, -7936, -7680, -7424, -7168, -6912, -6656, -6400]
  const ScriptSustainLine12: seq<int> := [-6272, -6016, -5760, -5504, -5376, -5120, -4864, -4608]
  const ScriptSustainLine13: seq<int> := [-4480, -4224, -3968, -3840, -3584, -3456, -3200, -2944]
  const ScriptSustainLine14: seq<int> := [-2816, -2560, -2432, -2176, -2048, -1792, -1664, -1408]
  const ScriptSustainLine15: seq<int> := [-1280, -1024, -896, -768, -512, -384, -128, 0]
  const ScriptSustainTable: seq<int> :=
    (ScriptSustainLine0 + ScriptSustainLine1) +
    (ScriptSustainLine2 + ScriptSustainLine3) +
    (ScriptSustainLine4 + ScriptSustainLine5) +
    (ScriptSustainLine6 + ScriptSustainLine7) +
    (ScriptSustainLine8 + ScriptSustainLine9) +
    (ScriptSustainLine10 + ScriptSustainLine11) +
    (ScriptSustainLine12 + ScriptSustainLine13) +
    (ScriptSustainLine14 + ScriptSustainLine15)

  /** `velocity_value`, `sustain_value` and `FPS` of the script. */
  const VelocityValue: int := 127
  const SustainValue: int := 0
  const Fps: int := 192

  lemma ScriptAttackTableIsNds()
    ensures ScriptAttackTable == AttackTable
  {
    assert AttackRow0 == ScriptAttackLine0 + ScriptAttackLine1;
    assert AttackRow1 == ScriptAttackLine2 + ScriptAttackLine3;
    assert AttackRow2 == ScriptAttackLine4 + ScriptAttackLine5;
    assert AttackRow3 == ScriptAttackLine6 + ScriptAttackLine7;
    assert AttackRow4 == ScriptAttackLine8 + ScriptAttackLine9;
    assert AttackRow5 == ScriptAttackLine10 + ScriptAttackLine11;
    assert AttackRow6 == ScriptAttackLine12 + ScriptAttackLine13;
    assert AttackRow7 == ScriptAttackLine14 + ScriptAttackLine15;
  }

  lemma ScriptDecayTableIsNds()
    ensures ScriptDecayTable == DecayTable
  {
    assert DecayRow0 == ScriptDecayLine0 + ScriptDecayLine1;
    assert DecayRow1 == ScriptDecayLine2 + ScriptDecayLine3;
    assert DecayRow2 == ScriptDecayLine4 + ScriptDecayLine5;
    assert DecayRow3 == ScriptDecayLine6 + ScriptDecayLine7;
    assert DecayRow4 == ScriptDecayLine8 + ScriptDecayLine9;
    assert DecayRow5 == ScriptDecayLine10 + ScriptDecayLine11;
    assert DecayRow6 == ScriptDecayLine12 + ScriptDecayLine13;
    assert DecayRow7 == ScriptDecayLine14 + ScriptDecayLine15;
  }

  lemma ScriptSustainTableIsNds()
    ensures ScriptSustainTable == SustainTable
  {
    assert SustainRow0 == ScriptSustainLine0 + ScriptSustainLine1;
    assert SustainRow1 == ScriptSustainLine2 + ScriptSustainLine3;
    assert SustainRow2 == ScriptSustainLine4 + ScriptSustainLine5;
    assert SustainRow3 == ScriptSustainLine6 + ScriptSustainLine7;
    assert SustainRow4 == ScriptSustainLine8 + ScriptSustainLine9;
    assert SustainRow5 == ScriptSustainLine10 + ScriptSustainLine11;
    assert SustainRow6 == ScriptSustainLine12 + ScriptSustainLine13;
    assert SustainRow7 == ScriptSustainLine14 + ScriptSustainLine15;
  }

  /** The script's tables are entry for entry the tables of the application,
      and it prints at the application's tick rate. */
  lemma ScriptTablesAreNdsTables()
    ensures EnvelopeTables(ScriptAttackTable, ScriptDecayTable, ScriptSustainTable) == NdsEnvelopeTables
    ensures Fps == TicksPerSecond
  {
    ScriptAttackTableIsNds();
    ScriptDecayTableIsNds();
    ScriptSustainTableIsNds();
  }
  // ---------------------------------------------------------------------------
  // The attack loop: velocity = attack * velocity // 256 while velocity > 0.

  /** One tick of the attack loop: `attack * velocity // 256`. Python's
      `//` floors; on these non-negative operands that is Dafny's `/`. The
      velocity falls by at least one, since the multiplier is below 256. */
  function ScriptNext(t: int, v: int): (w: int)
    requires 0 <= t <= 255 && v > 0
    ensures 0 <= w < v
  {
    MulMonotone(t, 255, v);
    t * v / 256
  }

  /** Ticks the script counts for multiplier `t` from velocity `v`. */
  function ScriptAttackTicks(t: int, v: int): (n: nat)
    requires 0 <= t <= 255
    ensures v > 0 ==> 1 <= n <= v
    ensures v <= 0 ==> n == 0
    decreases if v > 0 then v else 0
  {
    if v <= 0 then 0 else 1 + ScriptAttackTicks(t, ScriptNext(t, v))
  }

  /** A larger multiplier or a larger velocity never gives a smaller next
      velocity. */
  lemma ScriptNextMonotone(t1: int, t2: int, v1: int, v2: int)
    requires 0 <= t1 <= t2 <= 255 && 0 < v1 <= v2
    ensures ScriptNext(t1, v1) <= ScriptNext(t2, v2)
  {
    MulMonotone(t1, t2, v1);
    MulMonotone(v1, v2, t2);
    DivMonotone(t1 * v1, t2 * v2, 256);
  }

  /** The full multiplier 255 takes exactly one tick per unit of velocity
      below 257, so the script reports 127 ticks for it, where the
      application's attack loop never ends for the same entry. */
  lemma {:induction false} ScriptFullMultiplierTicks(v: int)
    requires 0 <= v <= 256
    ensures ScriptAttackTicks(255, v) == v
    decreases v
  {
    if v > 0 {
      assert ScriptNext(255, v) == v - 1 by {
        assert 255 * v == (v - 1) * 256 + (256 - v);
      }
      ScriptFullMultiplierTicks(v - 1);
    }
  }

  /** The multiplier 0 of the last entry finishes in one tick. */
  lemma ScriptZeroMultiplierTicks()
    ensures ScriptAttackTicks(0, VelocityValue) == 1
  {
  }

  /** A larger multiplier never takes fewer ticks. */
  lemma {:induction false} ScriptAttackTicksMonotone(t1: int, t2: int, v: int)
    requires 0 <= t1 <= t2 <= 255
    ensures ScriptAttackTicks(t1, v) <= ScriptAttackTicks(t2, v)
    decreases if v > 0 then v else 0
  {
    if v > 0 {
      ScriptNextMonotone(t1, t2, v, v);
      ScriptAttackTicksFromMonotone(t1, ScriptNext(t1, v), ScriptNext(t2, v));
      ScriptAttackTicksMonotone(t1, t2, ScriptNext(t2, v));
    }
  }

  /** A lower starting velocity never takes more ticks. */
  lemma {:induction false} ScriptAttackTicksFromMonotone(t: int, v1: int, v2: int)
    requires 0 <= t <= 255 && v1 <= v2
    ensures ScriptAttackTicks(t, v1) <= ScriptAttackTicks(t, v2)
    decreases if v2 > 0 then v2 else 0
  {
    if v1 > 0 {
      ScriptNextMonotone(t, t, v1, v2);
      ScriptAttackTicksFromMonotone(t, ScriptNext(t, v1), ScriptNext(t, v2));
    }
  }

  lemma DivMonotone(a: int, b: int, d: int)
    requires 0 <= a <= b && d > 0
    ensures a / d <= b / d
  {
    DivMod(a, d);
    DivMod(b, d);
    if a / d > b / d {
      MulMonotone(b / d + 1, a / d, d);
    }
  }

  /** The loop `while velocity > 0: velocity = attack * velocity // 256`
      counts exactly `ScriptAttackTicks(attack, start)` ticks. */
  method CountAttackTicks(attack: int, start: int) returns (steps: nat)
    requires 0 <= attack <= 255
    ensures steps == ScriptAttackTicks(attack, start)
  {
    steps := 0;
    var velocity := start;
    while velocity > 0
      invariant steps + ScriptAttackTicks(attack, velocity) == ScriptAttackTicks(attack, start)
      decreases if velocity > 0 then velocity else 0
    {
      steps := steps + 1;
      velocity := ScriptNext(attack, velocity);
    }
  }

  /** The first loop of the script: the time of every attack multiplier of
      the table, in table order. */
  method AttackTimings(table: seq<int>) returns (out: seq<real>)
    requires forall k :: 0 <= k < |table| ==> 0 <= table[k] <= 255
    ensures |out| == |table|
    ensures forall k :: 0 <= k < |table| ==> out[k] == Seconds(ScriptAttackTicks(table[k], VelocityValue))
  {
    out := [];
    for k := 0 to |table|
      invariant |out| == k
      invariant forall j :: 0 <= j < k ==> out[j] == Seconds(ScriptAttackTicks(table[j], VelocityValue))
    {
      var steps := CountAttackTicks(table[k], VelocityValue);
      out := out + [steps as real / Fps as real];
    }
  }

  // ---------------------------------------------------------------------------
  // The decay and release loops: velocity -= decrement down to a floor.

  /** Ticks of decrement `d` from velocity `start` until the velocity is no
      longer above `floor`: the least count of decrements covering the
      distance. */
  function ScriptDecrementTicks(start: int, floor: int, d: int): (n: nat)
    requires start >= floor && d >= 1
    ensures start - n * d <= floor
    ensures n == 0 || start - (n - 1) * d > floor
  {
    CeilDiv(start - floor, d)
  }

  /** The loop `while velocity > floor: velocity -= d` counts exactly
      `ScriptDecrementTicks(start, floor, d)` ticks. */
  method CountDecrements(start: int, floor: int, d: int) returns (steps: nat)
    requires start >= floor && d >= 1
    ensures steps == ScriptDecrementTicks(start, floor, d)
  {
    steps := 0;
    var velocity := start;
    while velocity > floor
      invariant velocity == start - steps * d
      invariant steps == 0 || (steps - 1) * d < start - floor
      decreases velocity - floor
    {
      assert (steps + 1) * d == steps * d + d;
      steps := steps + 1;
      velocity := velocity - d;
    }
    CeilDivUnique(start - floor, d, steps);
  }

  /** The second loop: the decay time of every decrement, from 0 down to
      `sustain_table[sustain_value]`, the zero point. */
  method DecayTimings(table: seq<int>, sustainTable: seq<int>) returns (out: seq<real>)
    requires forall k :: 0 <= k < |table| ==> table[k] >= 1
    requires |sustainTable| > SustainValue && sustainTable[SustainValue] <= 0
    ensures |out| == |table|
    ensures forall k :: 0 <= k < |table| ==>
      out[k] == Seconds(ScriptDecrementTicks(0, sustainTable[SustainValue], table[k]))
  {
    out := [];
    for k := 0 to |table|
      invariant |out| == k
      invariant forall j :: 0 <= j < k ==>
        out[j] == Seconds(ScriptDecrementTicks(0, sustainTable[SustainValue], table[j]))
    {
      var decay := table[k];
      var sustain := sustainTable[SustainValue];
      var steps := CountDecrements(0, sustain, decay);
      out := out + [steps as real / Fps as real];
    }
  }

  /** The third loop: the release time of every decrement, from velocity 127
      (not 0) down to the zero point. */
  method ReleaseTimings(table: seq<int>) returns (out: seq<real>)
    requires forall k :: 0 <= k < |table| ==> table[k] >= 1
    ensures |out| == |table|
    ensures forall k :: 0 <= k < |table| ==>
      out[k] == Seconds(ScriptDecrementTicks(VelocityValue, ZeroPoint, table[k]))
  {
    out := [];
    for k := 0 to |table|
      invariant |out| == k
      invariant forall j :: 0 <= j < k ==>
        out[j] == Seconds(ScriptDecrementTicks(VelocityValue, ZeroPoint, table[j]))
    {
      var release := table[k];
      var steps := CountDecrements(VelocityValue, ZeroPoint, release);
      out := out + [steps as real / Fps as real];
    }
  }

  /** The whole script: its own tables, which are the converter's, and its
      three columns of times. The decay column is the application's decay
      time of every register; the release column starts from velocity 127. */
  method RunScript() returns (tables: EnvelopeTables, attack: seq<real>, decay: seq<real>, release: seq<real>)
    ensures Shaped(tables)
    ensures |attack| == TableSize && |decay| == TableSize && |release| == TableSize
    ensures forall k :: 0 <= k < TableSize ==>
      attack[k] == Seconds(ScriptAttackTicks(tables.attack[k], VelocityValue))
    ensures forall k :: 0 <= k < TableSize ==> decay[k] == Seconds(DecaySteps(tables, k))
    ensures forall k :: 0 <= k < TableSize ==>
      release[k] == Seconds(ScriptDecrementTicks(VelocityValue, ZeroPoint, tables.decay[k]))
    ensures tables == NdsEnvelopeTables
  {
    tables := EnvelopeTables(ScriptAttackTable, ScriptDecayTable, ScriptSustainTable);
    ScriptTablesAreNdsTables();
    NdsTablesShaped();
    assert forall k :: 0 <= k < TableSize ==> 0 <= tables.attack[k] <= 255 by {
      AttackBounds(tables);
    }
    DecayBounds(tables);
    attack := AttackTimings(tables.attack);
    decay := DecayTimings(tables.decay, tables.sustain);
    forall k | 0 <= k < TableSize
      ensures decay[k] == Seconds(DecaySteps(tables, k))
    {
      ScriptDecayMatchesApp(tables, k);
    }
    release := ReleaseTimings(tables.decay);
  }

  // ---------------------------------------------------------------------------
  // The script against the application.

  /** With its tables, the script's decay times are the application's
      register-to-time decay times, entry for entry. */
  lemma ScriptDecayMatchesApp(tables: EnvelopeTables, r: int)
    requires Shaped(tables) && 0 <= r < TableSize
    ensures ScriptDecrementTicks(0, tables.sustain[SustainValue], tables.decay[r]) == DecaySteps(tables, r)
  {
  }

  /** The script's release starts 127 above the application's, so it never
      counts fewer ticks, and for the smallest decrement it counts 127
      more. */
  lemma ScriptReleaseNotShorter(tables: EnvelopeTables, r: int)
    requires Shaped(tables) && 0 <= r < TableSize
    ensures ScriptDecrementTicks(VelocityValue, ZeroPoint, tables.decay[r]) >= DecaySteps(tables, r)
    ensures r == 0 ==> ScriptDecrementTicks(VelocityValue, ZeroPoint, tables.decay[r]) == DecaySteps(tables, r) + 127
  {
    DecayBounds(tables);
    CeilDivMonotone(-ZeroPoint, VelocityValue - ZeroPoint, tables.decay[r]);
    if r == 0 {
      CeilDivUnique(VelocityValue - ZeroPoint, 1, 92671);
      CeilDivUnique(-ZeroPoint, 1, 92544);
    }
  }

  /** Every attack entry takes between 1 and 127 script ticks, and entry 0,
      whose multiplier is full, takes exactly the 127 ticks of the full
      multiplier. */
  lemma ScriptAttackBounded(tables: EnvelopeTables, r: int)
    requires Shaped(tables) && 0 <= r < TableSize
    ensures 1 <= ScriptAttackTicks(tables.attack[r], VelocityValue) <= 127
    ensures r == 0 ==> ScriptAttackTicks(tables.attack[r], VelocityValue) == 127
  {
    ScriptFullMultiplierTicks(VelocityValue);
    ScriptAttackTicksMonotone(tables.attack[r], 255, VelocityValue);
  }
}
