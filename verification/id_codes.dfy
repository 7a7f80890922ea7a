/** Numeric codes of the en-US book ids of the scripture table. Comparing a
    few dozen ids pairwise as strings is beyond the verifier's budget, so each
    id is mapped to a number and the numbers are compared instead: ids whose
    codes differ are different ids. The code lists are checked against the
    table in TableChecks. */
module IdCodes {

  /** A number made of the first two and the last two characters of an id. */
  function IdCode(id: string): int {
    if |id| < 2 then |id| - 2
    else ((id[0] as int * 0x110000 + id[1] as int) * 0x110000 + id[|id| - 2] as int) * 0x110000 + id[|id| - 1] as int
  }

  ghost predicate DistinctInts(codes: seq<int>) {
    forall i, j :: 0 <= i < j < |codes| ==> codes[i] != codes[j]
  }

  /** The entries at rows `lo` to `hi - 1` differ from every later entry. */
  ghost predicate RowsDistinct(codes: seq<int>, lo: int, hi: int) {
    forall i, j :: 0 <= lo <= i < hi && i < j < |codes| ==> codes[i] != codes[j]
  }

  const BookOfMormonIdCodes: seq<int> := [67761497324565430373, 69144383885144883301, 146586095822363885666, 139671679155658752115, 146586095822363885677, 153500543520206618729, 164563638487334453357, 150734772881524326504, 134140130430847615073, 143820327666171576430, 70527270445724336229, 71910157006303789157, 150734772881539924078, 139671686603120902258, 150734772881538809961]
  const DoctrineAndCovenantsIdCodes: seq<int> := [138288778941366009955, 153500532348997795940]
  const PearlOfGreatPriceIdCodes: seq<int> := [150734772881528782963, 134140118018378760301, 146586118164710228077, 146586118164710228072, 134140134154586488934]
  const OldTestamentIdCodes: seq<int> := [142437441105596579950, 139671691568103096440, 149351873908493844598, 152117666889599352941, 138288781423876046964, 146586113199806021736, 146586120647262601319, 157649213131916050536, 67761497324550946925, 69144383885130399853, 67761497324557631603, 69144383885137084531, 67761497324558745714, 69144383885138198642, 139671694050608676961, 152117647029652750440, 139671685361892065384, 146586113199801565282, 154883437528261591155, 154883436287014928502, 139671665501944348780, 159032092245015527527, 145203231604208762977, 146586100787334938738, 149351868943507193965, 139671694050594193515, 138288776458871570542, 143820340078631518305, 146586113199790424172, 134140131672095391859, 153500529866491101284, 146586113199785967720, 150734765434051035240, 152117642064688382061, 143820322701189382242, 168712285756618440808, 143820322701189382247, 168712285756603957352, 150734755504086646892]
  const NewTestamentIdCodes: seq<int> := [150734755504107815028, 150734755504105586795, 149351893768429305957, 146586113199793766510, 134140119259645476979, 157649205684437188717, 67761497324566544498, 69144383885145997426, 142437436140609929324, 139671681638150963304, 154883423874552758384, 136905907275745394796, 67761497324555403379, 69144383885134856307, 67761497324559859821, 69144383885139312749, 160414971358129487987, 154883423874548301933, 143820327666176032866, 146586095822352744563, 67761497324555403380, 69144383885134856308, 67761497324558745710, 69144383885138198638, 70527270445717651566, 146586120647262601317, 157649193271970562166]

  lemma BookOfMormonCodesDistinct()
    ensures DistinctInts(BookOfMormonIdCodes)
  {
  }

  lemma DoctrineAndCovenantsCodesDistinct()
    ensures DistinctInts(DoctrineAndCovenantsIdCodes)
  {
  }

  lemma PearlOfGreatPriceCodesDistinct()
    ensures DistinctInts(PearlOfGreatPriceIdCodes)
  {
  }

  lemma OldTestamentCodesDistinct()
    ensures DistinctInts(OldTestamentIdCodes)
  {
    OldTestamentRows0();
    OldTestamentRows1();
    OldTestamentRows2();
    OldTestamentRows3();
    OldTestamentRows4();
    OldTestamentRows5();
    OldTestamentRows6();
    OldTestamentRows7();
    OldTestamentRows8();
    OldTestamentRows9();
    OldTestamentRows10();
    OldTestamentRows11();
    OldTestamentRows12();
    OldTestamentRows13();
    OldTestamentRows14();
    OldTestamentRows15();
    OldTestamentRows16();
    OldTestamentRows21();
    OldTestamentRows28();
  }

  lemma OldTestamentRows0()
    ensures RowsDistinct(OldTestamentIdCodes, 0, 1)
  {
  }

  lemma OldTestamentRows1()
    ensures RowsDistinct(OldTestamentIdCodes, 1, 2)
  {
  }

  lemma OldTestamentRows2()
    ensures RowsDistinct(OldTestamentIdCodes, 2, 3)
  {
  }

  lemma OldTestamentRows3()
    ensures RowsDistinct(OldTestamentIdCodes, 3, 4)
  {
  }

  lemma OldTestamentRows4()
    ensures RowsDistinct(OldTestamentIdCodes, 4, 5)
  {
  }

  lemma OldTestamentRows5()
    ensures RowsDistinct(OldTestamentIdCodes, 5, 6)
  {
  }

  lemma OldTestamentRows6()
    ensures RowsDistinct(OldTestamentIdCodes, 6, 7)
  {
  }

  lemma OldTestamentRows7()
    ensures RowsDistinct(OldTestamentIdCodes, 7, 8)
  {
  }

  lemma OldTestamentRows8()
    ensures RowsDistinct(OldTestamentIdCodes, 8, 9)
  {
  }

  lemma OldTestamentRows9()
    ensures RowsDistinct(OldTestamentIdCodes, 9, 10)
  {
  }

  lemma OldTestamentRows10()
    ensures RowsDistinct(OldTestamentIdCodes, 10, 11)
  {
  }

  lemma OldTestamentRows11()
    ensures RowsDistinct(OldTestamentIdCodes, 11, 12)
  {
  }

  lemma OldTestamentRows12()
    ensures RowsDistinct(OldTestamentIdCodes, 12, 13)
  {
  }

  lemma OldTestamentRows13()
    ensures RowsDistinct(OldTestamentIdCodes, 13, 14)
  {
  }

  lemma OldTestamentRows14()
    ensures RowsDistinct(OldTestamentIdCodes, 14, 15)
  {
  }

  lemma OldTestamentRows15()
    ensures RowsDistinct(OldTestamentIdCodes, 15, 16)
  {
  }

  lemma OldTestamentRows16()
    ensures RowsDistinct(OldTestamentIdCodes, 16, 21)
  {
  }

  lemma OldTestamentRows21()
    ensures RowsDistinct(OldTestamentIdCodes, 21, 28)
  {
  }

  lemma OldTestamentRows28()
    ensures RowsDistinct(OldTestamentIdCodes, 28, 39)
  {
  }

  lemma NewTestamentCodesDistinct()
    ensures DistinctInts(NewTestamentIdCodes)
  {
    NewTestamentRows0();
    NewTestamentRows2();
    NewTestamentRows4();
    NewTestamentRows8();
    NewTestamentRows13();
  }

  lemma NewTestamentRows0()
    ensures RowsDistinct(NewTestamentIdCodes, 0, 2)
  {
  }

  lemma NewTestamentRows2()
    ensures RowsDistinct(NewTestamentIdCodes, 2, 4)
  {
  }

  lemma NewTestamentRows4()
    ensures RowsDistinct(NewTestamentIdCodes, 4, 8)
  {
  }

  lemma NewTestamentRows8()
    ensures RowsDistinct(NewTestamentIdCodes, 8, 13)
  {
  }

  lemma NewTestamentRows13()
    ensures RowsDistinct(NewTestamentIdCodes, 13, 27)
  {
  }
}
