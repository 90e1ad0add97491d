/** The three 128-entry envelope tables that the converter's `App::new` installs
    (attack multipliers, decay decrements, sustain levels), the fixed-point zero
    point and the tick rate of the NDS envelope engine, and the shape facts about
    the tables that the simulators and searches rely on.

    Each table is written as eight rows of sixteen entries, in table order; the
    rows exist only so that the verifier can look entries up (it does not
    evaluate an index into a 128-element literal). */
module NdsTables {

  /** `ZERO_POINT`: the velocity that stands for silence. */
  const ZeroPoint: int := -92544
  /** `TPS`: envelope ticks per second. */
  const TicksPerSecond: int := 192
  /** Number of entries in each table, and so the number of usable registers. */
  const TableSize: int := 128

  // attack_table: the multiplier applied to the velocity on every attack tick.
  const AttackRow0: seq<int> := [255, 254, 253, 252, 251, 250, 249, 248, 247, 246, 245, 244, 243, 242, 241, 240]
  const AttackRow1: seq<int> := [239, 238, 237, 236, 235, 234, 233, 232, 231, 230, 229, 228, 227, 226, 225, 224]
  const AttackRow2: seq<int> := [223, 222, 221, 220, 219, 218, 217, 216, 215, 214, 213, 212, 211, 210, 209, 208]
  const AttackRow3: seq<int> := [207, 206, 205, 204, 203, 202, 201, 200, 199, 198, 197, 196, 195, 194, 193, 192]
  const AttackRow4: seq<int> := [191, 190, 189, 188, 187, 186, 185, 184, 183, 182, 181, 180, 179, 178, 177, 176]
  const AttackRow5: seq<int> := [175, 174, 173, 172, 171, 170, 169, 168, 167, 166, 165, 164, 163, 162, 161, 160]
  const AttackRow6: seq<int> := [159, 158, 157, 156, 155, 154, 153, 152, 151, 150, 149, 148, 147, 143, 137, 132]
  const AttackRow7: seq<int> := [127, 123, 116, 109, 100, 92, 84, 73, 63, 51, 38, 26, 14, 5, 1, 0]
  const AttackTable: seq<int> :=
    AttackRow0 +
    AttackRow1 +
    AttackRow2 +
    AttackRow3 +
    AttackRow4 +
    AttackRow5 +
    AttackRow6 +
    AttackRow7

  // decay_table: the amount subtracted from the velocity on every decay or release tick.
  const DecayRow0: seq<int> := [1, 3, 5, 7, 9, 11, 13, 15, 17, 19, 21, 23, 25, 27, 29, 31]
  const DecayRow1: seq<int> := [33, 35, 37, 39, 41, 43, 45, 47, 49, 51, 53, 55, 57, 59, 61, 63]
  const DecayRow2: seq<int> := [65, 67, 69, 71, 73, 75, 77, 79, 81, 83, 85, 87, 89, 91, 93, 95]
  const DecayRow3: seq<int> := [97, 99, 101, 102, 104, 105, 107, 108, 110, 111, 113, 115, 116, 118, 120, 122]
  const DecayRow4: seq<int> := [124, 126, 128, 130, 132, 135, 137, 140, 142, 145, 148, 151, 154, 157, 160, 163]
  const DecayRow5: seq<int> := [167, 171, 175, 179, 183, 187, 192, 197, 202, 208, 213, 219, 226, 233, 240, 248]
  const DecayRow6: seq<int> := [256, 265, 274, 284, 295, 307, 320, 334, 349, 366, 384, 404, 427, 452, 480, 512]
  const DecayRow7: seq<int> := [549, 591, 640, 698, 768, 853, 960, 1097, 1280, 1536, 1920, 2560, 3840, 7680, 15360, 65535]
  const DecayTable: seq<int> :=
    DecayRow0 +
    DecayRow1 +
    DecayRow2 +
    DecayRow3 +
    DecayRow4 +
    DecayRow5 +
    DecayRow6 +
    DecayRow7

  // sustain_table: the velocity level held during sustain, indexed by 127 - register.
  const SustainRow0: seq<int> := [-92544, -92416, -92288, -83328, -76928, -71936, -67840, -64384, -61440, -58880, -56576, -54400, -52480, -50688, -49024, -47488]
  const SustainRow1: seq<int> := [-46080, -44672, -43392, -42240, -41088, -40064, -39040, -38016, -36992, -36096, -35328, -34432, -33664, -32896, -32128, -31360]
  const SustainRow2: seq<int> := [-30592, -29952, -29312, -28672, -28032, -27392, -26880, -26240, -25728, -25088, -24576, -24064, -23552, -23040, -22528, -22144]
  const SustainRow3: seq<int> := [-21632, -21120, -20736, -20224, -19840, -19456, -19072, -18560, -18176, -17792, -17408, -17024, -16640, -16256, -16000, -15616]
  const SustainRow4: seq<int> := [-15232, -14848, -14592, -14208, -13952, -13568, -13184, -12928, -12672, -12288, -12032, -11648, -11392, -11136, -10880, -10496]
  const SustainRow5: seq<int> := [-10240, -9984, -9728, -9472, -9216, -8960, -8704, -8448, -8192, -7936, -7680, -7424, -7168, -6912, -6656, -6400]
  const SustainRow6: seq<int> := [-6272, -6016, -5760, -5504, -5376, -5120, -4864, -4608, -4480, -4224, -3968, -3840, -3584, -3456, -3200, -2944]
  const SustainRow7: seq<int> := [-2816, -2560, -2432, -2176, -2048, -1792, -1664, -1408, -1280, -1024, -896, -768, -512, -384, -128, 0]
  const SustainTable: seq<int> :=
    SustainRow0 +
    SustainRow1 +
    SustainRow2 +
    SustainRow3 +
    SustainRow4 +
    SustainRow5 +
    SustainRow6 +
    SustainRow7

  ghost predicate StrictlyDecreasing(s: seq<int>)
  {
    forall i :: 0 <= i < |s| - 1 ==> s[i] > s[i + 1]
  }

  ghost predicate StrictlyIncreasing(s: seq<int>)
  {
    forall i :: 0 <= i < |s| - 1 ==> s[i] < s[i + 1]
  }

  lemma DecreasingConcat(a: seq<int>, b: seq<int>)
    requires a != [] && b != []
    requires StrictlyDecreasing(a) && StrictlyDecreasing(b) && a[|a| - 1] > b[0]
    ensures StrictlyDecreasing(a + b)
  {
    forall i | 0 <= i < |a + b| - 1 ensures (a + b)[i] > (a + b)[i + 1] {
      if i >= |a| {
        assert (a + b)[i] == b[i - |a|];
      }
    }
  }

  lemma IncreasingConcat(a: seq<int>, b: seq<int>)
    requires a != [] && b != []
    requires StrictlyIncreasing(a) && StrictlyIncreasing(b) && a[|a| - 1] < b[0]
    ensures StrictlyIncreasing(a + b)
  {
    forall i | 0 <= i < |a + b| - 1 ensures (a + b)[i] < (a + b)[i + 1] {
      if i >= |a| {
        assert (a + b)[i] == b[i - |a|];
      }
    }
  }

  /** Adjacent comparisons give the order between any two entries. */
  lemma {:induction false} DecreasingOrder(s: seq<int>, i: int, j: int)
    requires StrictlyDecreasing(s) && 0 <= i < j < |s|
    ensures s[i] > s[j]
    decreases j - i
  {
    if i + 1 < j {
      DecreasingOrder(s, i + 1, j);
    }
  }

  lemma {:induction false} IncreasingOrder(s: seq<int>, i: int, j: int)
    requires StrictlyIncreasing(s) && 0 <= i < j < |s|
    ensures s[i] < s[j]
    decreases j - i
  {
    if i + 1 < j {
      IncreasingOrder(s, i + 1, j);
    }
  }

  lemma AttackRowsOrdered()
    ensures StrictlyDecreasing(AttackRow0) && StrictlyDecreasing(AttackRow1) && StrictlyDecreasing(AttackRow2) && StrictlyDecreasing(AttackRow3)
    ensures StrictlyDecreasing(AttackRow4) && StrictlyDecreasing(AttackRow5) && StrictlyDecreasing(AttackRow6) && StrictlyDecreasing(AttackRow7)
  {
  }

  /** The attack multipliers fall strictly from 255 at register 0 to 0 at register 127. */
  lemma AttackTableShape()
    ensures |AttackTable| == TableSize && StrictlyDecreasing(AttackTable)
    ensures AttackTable[0] == 255 && AttackTable[1] == 254 && AttackTable[127] == 0
  {
    AttackRowsOrdered();
    DecreasingConcat(AttackRow0, AttackRow1);
    DecreasingConcat(AttackRow0 + AttackRow1, AttackRow2);
    DecreasingConcat(AttackRow0 + AttackRow1 + AttackRow2, AttackRow3);
    DecreasingConcat(AttackRow0 + AttackRow1 + AttackRow2 + AttackRow3, AttackRow4);
    DecreasingConcat(AttackRow0 + AttackRow1 + AttackRow2 + AttackRow3 + AttackRow4, AttackRow5);
    DecreasingConcat(AttackRow0 + AttackRow1 + AttackRow2 + AttackRow3 + AttackRow4 + AttackRow5, AttackRow6);
    DecreasingConcat(AttackRow0 + AttackRow1 + AttackRow2 + AttackRow3 + AttackRow4 + AttackRow5 + AttackRow6, AttackRow7);
  }

  lemma DecayRowsOrdered()
    ensures StrictlyIncreasing(DecayRow0) && StrictlyIncreasing(DecayRow1) && StrictlyIncreasing(DecayRow2) && StrictlyIncreasing(DecayRow3)
    ensures StrictlyIncreasing(DecayRow4) && StrictlyIncreasing(DecayRow5) && StrictlyIncreasing(DecayRow6) && StrictlyIncreasing(DecayRow7)
  {
  }

  /** The decay decrements rise strictly from 1 at register 0 to 65535 at register 127. */
  lemma DecayTableShape()
    ensures |DecayTable| == TableSize && StrictlyIncreasing(DecayTable)
    ensures DecayTable[0] == 1 && DecayTable[127] == 65535
  {
    DecayRowsOrdered();
    IncreasingConcat(DecayRow0, DecayRow1);
    IncreasingConcat(DecayRow0 + DecayRow1, DecayRow2);
    IncreasingConcat(DecayRow0 + DecayRow1 + DecayRow2, DecayRow3);
    IncreasingConcat(DecayRow0 + DecayRow1 + DecayRow2 + DecayRow3, DecayRow4);
    IncreasingConcat(DecayRow0 + DecayRow1 + DecayRow2 + DecayRow3 + DecayRow4, DecayRow5);
    IncreasingConcat(DecayRow0 + DecayRow1 + DecayRow2 + DecayRow3 + DecayRow4 + DecayRow5, DecayRow6);
    IncreasingConcat(DecayRow0 + DecayRow1 + DecayRow2 + DecayRow3 + DecayRow4 + DecayRow5 + DecayRow6, DecayRow7);
  }

  /** Neighbouring entries `a < b` lie far enough apart that
      `|ZERO_POINT| * (b - a) >= a * b`: covering the distance to the zero
      point in steps of `b` then takes strictly fewer steps than in steps of
      `a`. */
  ghost predicate WideGaps(s: seq<int>)
  {
    forall i :: 0 <= i < |s| - 1 ==> -ZeroPoint * (s[i + 1] - s[i]) >= s[i] * s[i + 1]
  }

  lemma WideGapsConcat(a: seq<int>, b: seq<int>)
    requires a != [] && b != []
    requires WideGaps(a) && WideGaps(b) && -ZeroPoint * (b[0] - a[|a| - 1]) >= a[|a| - 1] * b[0]
    ensures WideGaps(a + b)
  {
    forall i | 0 <= i < |a + b| - 1 ensures -ZeroPoint * ((a + b)[i + 1] - (a + b)[i]) >= (a + b)[i] * (a + b)[i + 1] {
      if i >= |a| {
        assert (a + b)[i] == b[i - |a|];
      }
    }
  }

  lemma DecayLowRowsWideGaps()
    ensures WideGaps(DecayRow0) && WideGaps(DecayRow1) && WideGaps(DecayRow2) && WideGaps(DecayRow3)
  {
  }

  lemma DecayHighRowsWideGaps()
    ensures WideGaps(DecayRow4) && WideGaps(DecayRow5) && WideGaps(DecayRow6) && WideGaps(DecayRow7)
  {
  }

  /** Every two neighbouring decay decrements are that far apart, so no two
      registers share a decay time. */
  lemma DecayTableWideGaps()
    ensures WideGaps(DecayTable)
  {
    DecayLowRowsWideGaps();
    DecayHighRowsWideGaps();
    WideGapsConcat(DecayRow0, DecayRow1);
    WideGapsConcat(DecayRow0 + DecayRow1, DecayRow2);
    WideGapsConcat(DecayRow0 + DecayRow1 + DecayRow2, DecayRow3);
    WideGapsConcat(DecayRow0 + DecayRow1 + DecayRow2 + DecayRow3, DecayRow4);
    WideGapsConcat(DecayRow0 + DecayRow1 + DecayRow2 + DecayRow3 + DecayRow4, DecayRow5);
    WideGapsConcat(DecayRow0 + DecayRow1 + DecayRow2 + DecayRow3 + DecayRow4 + DecayRow5, DecayRow6);
    WideGapsConcat(DecayRow0 + DecayRow1 + DecayRow2 + DecayRow3 + DecayRow4 + DecayRow5 + DecayRow6, DecayRow7);
  }

  lemma SustainRowsOrdered()
    ensures StrictlyIncreasing(SustainRow0) && StrictlyIncreasing(SustainRow1) && StrictlyIncreasing(SustainRow2) && StrictlyIncreasing(SustainRow3)
    ensures StrictlyIncreasing(SustainRow4) && StrictlyIncreasing(SustainRow5) && StrictlyIncreasing(SustainRow6) && StrictlyIncreasing(SustainRow7)
  {
  }

  /** The sustain levels rise strictly from the zero point at index 0 to 0 at index 127. */
  lemma SustainTableShape()
    ensures |SustainTable| == TableSize && StrictlyIncreasing(SustainTable)
    ensures SustainTable[0] == ZeroPoint && SustainTable[126] == -128 && SustainTable[127] == 0
  {
    SustainRowsOrdered();
    IncreasingConcat(SustainRow0, SustainRow1);
    IncreasingConcat(SustainRow0 + SustainRow1, SustainRow2);
    IncreasingConcat(SustainRow0 + SustainRow1 + SustainRow2, SustainRow3);
    IncreasingConcat(SustainRow0 + SustainRow1 + SustainRow2 + SustainRow3, SustainRow4);
    IncreasingConcat(SustainRow0 + SustainRow1 + SustainRow2 + SustainRow3 + SustainRow4, SustainRow5);
    IncreasingConcat(SustainRow0 + SustainRow1 + SustainRow2 + SustainRow3 + SustainRow4 + SustainRow5, SustainRow6);
    IncreasingConcat(SustainRow0 + SustainRow1 + SustainRow2 + SustainRow3 + SustainRow4 + SustainRow5 + SustainRow6, SustainRow7);
  }

  /** The three tables of one envelope engine, as the fields `attack_table`,
      `decay_table` and `sustain_table` of the converter hold them. */
  datatype EnvelopeTables = EnvelopeTables(attack: seq<int>, decay: seq<int>, sustain: seq<int>)

  /** The tables the converter installs. */
  const NdsEnvelopeTables: EnvelopeTables := EnvelopeTables(AttackTable, DecayTable, SustainTable)

  /** The shape of the converter's tables that the simulators and searches
      depend on: 128 entries each; attack multipliers strictly falling from
      255 to 0; decay decrements strictly rising from 1 to 65535; sustain
      levels strictly rising from the zero point through -128 (index 126) to 0. */
  ghost predicate Shaped(t: EnvelopeTables)
  {
    && |t.attack| == TableSize && |t.decay| == TableSize && |t.sustain| == TableSize
    && t.attack[0] == 255 && t.attack[127] == 0
    && (forall i, j :: 0 <= i < j < TableSize ==> t.attack[i] > t.attack[j])
    && t.decay[0] == 1 && t.decay[127] == 65535
    && (forall i, j :: 0 <= i < j < TableSize ==> t.decay[i] < t.decay[j])
    && t.sustain[0] == ZeroPoint && t.sustain[126] == -128 && t.sustain[127] == 0
    && (forall i, j :: 0 <= i < j < TableSize ==> t.sustain[i] < t.sustain[j])
  }

  lemma AttackTableOrdered()
    ensures forall i, j :: 0 <= i < j < TableSize ==> AttackTable[i] > AttackTable[j]
  {
    AttackTableShape();
    forall i, j | 0 <= i < j < TableSize ensures AttackTable[i] > AttackTable[j] {
      DecreasingOrder(AttackTable, i, j);
    }
  }

  lemma DecayTableOrdered()
    ensures forall i, j :: 0 <= i < j < TableSize ==> DecayTable[i] < DecayTable[j]
  {
    DecayTableShape();
    forall i, j | 0 <= i < j < TableSize ensures DecayTable[i] < DecayTable[j] {
      IncreasingOrder(DecayTable, i, j);
    }
  }

  lemma SustainTableOrdered()
    ensures forall i, j :: 0 <= i < j < TableSize ==> SustainTable[i] < SustainTable[j]
  {
    SustainTableShape();
    forall i, j | 0 <= i < j < TableSize ensures SustainTable[i] < SustainTable[j] {
      IncreasingOrder(SustainTable, i, j);
    }
  }

  /** The converter's tables have that shape. */
  lemma NdsTablesShaped()
    ensures Shaped(NdsEnvelopeTables)
  {
    AttackTableShape();
    DecayTableShape();
    SustainTableShape();
    AttackTableOrdered();
    DecayTableOrdered();
    SustainTableOrdered();
  }

  /** Every register but 0 has an attack multiplier between 0 and 254. */
  lemma AttackBounds(t: EnvelopeTables)
    requires Shaped(t)
    ensures forall r :: 1 <= r < TableSize ==> 0 <= t.attack[r] <= 254
  {
    forall r | 1 <= r < TableSize ensures 0 <= t.attack[r] <= 254 {
      assert t.attack[0] > t.attack[r];
      if r < 127 { assert t.attack[r] > t.attack[127]; }
    }
  }

  /** Every decay decrement is between 1 and 65535. */
  lemma DecayBounds(t: EnvelopeTables)
    requires Shaped(t)
    ensures forall r :: 0 <= r < TableSize ==> 1 <= t.decay[r] <= 65535
  {
    forall r | 0 <= r < TableSize ensures 1 <= t.decay[r] <= 65535 {
      if r > 0 { assert t.decay[0] < t.decay[r]; }
      if r < 127 { assert t.decay[r] < t.decay[127]; }
    }
  }

  /** Every sustain level but the last lies between the zero point and -128. */
  lemma SustainBounds(t: EnvelopeTables)
    requires Shaped(t)
    ensures forall i :: 0 <= i < TableSize - 1 ==> ZeroPoint <= t.sustain[i] <= -128
  {
    forall i | 0 <= i < TableSize - 1 ensures ZeroPoint <= t.sustain[i] <= -128 {
      if i > 0 { assert t.sustain[0] < t.sustain[i]; }
      if i < 126 { assert t.sustain[i] < t.sustain[126]; }
    }
  }
}
