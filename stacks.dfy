/** Organ stacks: an organ card followed by what was applied to it. The
    predicates `isInmune`, `jugadaSana` and `jugadaGanadora`, the shapes the
    rules keep every stack in, and the effect of one virus or one medicine on
    one stack. */
module Stacks {
  import opened Cards
  import opened Seqs

  type Stack = seq<Card>

  /** `isInmune`: more than two cards, one organ and two medicines. */
  predicate IsImmune(s: Stack)
  {
    |s| > 2 && Count(s, IsOrgan) == 1 && Count(s, IsMedicine) == 2
  }

  /** `jugadaSana`: a non-empty stack without a virus. */
  predicate IsHealthy(s: Stack)
  {
    |s| > 0 && forall k :: 0 <= k < |s| ==> !IsVirus(s[k])
  }

  /** `jugadaGanadora`: more than three healthy stacks. */
  predicate IsWinning(ss: seq<Stack>)
  {
    Count(ss, IsHealthy) > 3
  }

  /** The four shapes `[O]`, `[O,V]`, `[O,M]`, `[O,M,M]`, where every card on
      the organ is one the organ accepts. */
  predicate WellFormedStack(s: Stack)
  {
    && 1 <= |s| <= 3
    && IsOrgan(s[0])
    && (|s| == 2 ==> (IsVirus(s[1]) || IsMedicine(s[1])) && Admits(s[0], s[1]))
    && (|s| == 3 ==> IsMedicine(s[1]) && IsMedicine(s[2]) && Admits(s[0], s[1]) && Admits(s[0], s[2]))
  }

  predicate NonEmptyStacks(ss: seq<Stack>)
  {
    forall k :: 0 <= k < |ss| ==> |ss[k]| > 0
  }

  /** Every stack well formed and no organ on the table twice. */
  predicate WellFormedStacks(ss: seq<Stack>)
  {
    && (forall k :: 0 <= k < |ss| ==> WellFormedStack(ss[k]))
    && (forall j, k :: 0 <= j < k < |ss| ==> ss[j][0] != ss[k][0])
  }

  lemma CountSmall(s: Stack, p: Card -> bool)
    requires |s| <= 3
    ensures Count(s, p) == (if |s| > 0 && p(s[0]) then 1 else 0)
                         + (if |s| > 1 && p(s[1]) then 1 else 0)
                         + (if |s| > 2 && p(s[2]) then 1 else 0)
  {
    if |s| > 0 {
      if |s| > 1 {
        if |s| > 2 {
          assert s[1..][1..][1..] == [];
        }
        assert s[1..][1..] == s[2..];
      }
    }
  }

  /** On a well-formed stack, immune means exactly the `[O,M,M]` shape. */
  lemma ImmuneIsThreeCards(s: Stack)
    requires WellFormedStack(s)
    ensures IsImmune(s) <==> |s| == 3
  {
    CountSmall(s, IsOrgan);
    CountSmall(s, IsMedicine);
    CategoriesAreConstructors(s[0]);
    if |s| == 3 {
      CategoriesAreConstructors(s[1]);
      CategoriesAreConstructors(s[2]);
    }
  }

  /** On a well-formed stack, healthy means no virus in second place. */
  lemma HealthyShapes(s: Stack)
    requires WellFormedStack(s)
    ensures IsHealthy(s) <==> |s| == 1 || IsMedicine(s[1])
  {
    CategoriesAreConstructors(s[0]);
    if |s| >= 2 {
      CategoriesAreConstructors(s[1]);
    }
    if |s| == 3 {
      CategoriesAreConstructors(s[2]);
    }
  }

  /** A new stack whose organ is not on the table yet may join it. */
  lemma AppendStackKeeps(ss: seq<Stack>, t: Stack)
    requires WellFormedStacks(ss) && WellFormedStack(t)
    requires forall m :: 0 <= m < |ss| ==> ss[m][0] != t[0]
    ensures WellFormedStacks(ss + [t])
  {
    var r := ss + [t];
    assert forall m :: 0 <= m < |ss| ==> r[m] == ss[m];
  }

  /** Removing a stack keeps the table well formed, and its organ is then no
      longer on the table. */
  lemma RemoveStackKeeps(ss: seq<Stack>, k: nat)
    requires WellFormedStacks(ss) && k < |ss|
    ensures WellFormedStacks(RemoveAt(ss, k))
    ensures forall m :: 0 <= m < |ss| - 1 ==> RemoveAt(ss, k)[m][0] != ss[k][0]
  {
    var r := RemoveAt(ss, k);
    forall m, n | 0 <= m < n < |r|
      ensures r[m][0] != r[n][0]
    {
      var m' := if m < k then m else m + 1;
      var n' := if n < k then n else n + 1;
      assert r[m] == ss[m'] && r[n] == ss[n'] && m' < n';
    }
  }

  /** A stack may be replaced by another of the same organ. */
  lemma UpdateStackKeeps(ss: seq<Stack>, k: nat, t: Stack)
    requires WellFormedStacks(ss) && k < |ss| && WellFormedStack(t) && t[0] == ss[k][0]
    ensures WellFormedStacks(ss[k := t])
  {
  }

  /** Organs in stacks that are all non-empty, in order. */
  function Heads(ss: seq<Stack>): (hs: seq<Card>)
    requires forall k :: 0 <= k < |ss| ==> |ss[k]| > 0
    ensures |hs| == |ss|
    ensures forall k :: 0 <= k < |ss| ==> hs[k] == ss[k][0]
  {
    if ss == [] then [] else [ss[0][0]] + Heads(ss[1..])
  }

  // ---------------------------------------------------------------------------
  // One virus on one stack: the loop of `aOtroUnVirus`

  /** What a virus does to a stack: it cancels the first medicine (which goes
      to the discard pile), destroys the stack if it meets a virus first, or
      else joins the stack. */
  datatype VirusHit = Cancelled(rest: Stack, medicine: Card) | Destroyed | Infected(infected: Stack)

  predicate IsMedicineOrVirus(c: Card)
  {
    IsMedicine(c) || IsVirus(c)
  }

  function VirusOnStack(s: Stack, virus: Card): VirusHit
  {
    var k := FirstWhere(s, IsMedicineOrVirus);
    if k == |s| then Infected(s + [virus])
    else if IsMedicine(s[k]) then Cancelled(RemoveFirst(s, s[k]), s[k])
    else Destroyed
  }

  /** The scan of the loop of `aOtroUnVirus`: the position of the first
      medicine or virus, or the length of the stack. */
  method ScanForHit(s: Stack) returns (n: nat)
    ensures n == FirstWhere(s, IsMedicineOrVirus)
  {
    n := 0;
    while n < |s| && !IsMedicineOrVirus(s[n])
      invariant n <= |s|
      invariant forall p :: 0 <= p < n ==> !IsMedicineOrVirus(s[p])
    {
      n := n + 1;
    }
    FirstWhereIs(s, IsMedicineOrVirus, n);
  }

  /** On the stacks a virus may attack (well formed, not immune, an organ that
      takes the virus), the effect by shape; the outcome is well formed again. */
  lemma VirusOnShapes(s: Stack, virus: Card)
    requires WellFormedStack(s) && !IsImmune(s)
    requires IsVirus(virus) && Admits(s[0], virus)
    ensures |s| == 1 ==> VirusOnStack(s, virus) == Infected([s[0], virus])
    ensures |s| == 2 && IsMedicine(s[1]) ==> VirusOnStack(s, virus) == Cancelled([s[0]], s[1])
    ensures |s| == 2 && IsVirus(s[1]) ==> VirusOnStack(s, virus) == Destroyed
    ensures VirusOnStack(s, virus).Infected? ==> WellFormedStack(VirusOnStack(s, virus).infected)
    ensures VirusOnStack(s, virus).Cancelled? ==> WellFormedStack(VirusOnStack(s, virus).rest)
  {
    ImmuneIsThreeCards(s);
    CategoriesAreConstructors(s[0]);
    CategoriesAreConstructors(virus);
    var k := FirstWhere(s, IsMedicineOrVirus);
    if |s| == 2 {
      CategoriesAreConstructors(s[1]);
      assert k == 1;
      if IsMedicine(s[1]) {
        RemoveFirstAt(s, 1);
        assert RemoveAt(s, 1) == [s[0]];
      }
    } else {
      assert k == 1;
      assert s + [virus] == [s[0], virus];
    }
  }

  // ---------------------------------------------------------------------------
  // One medicine on one's own stack: the loop of `aSuCarta`

  /** What a medicine does to the stack of `organ`: it cures the first virus it
      fits (any virus when the organ is the wildcard), fails on a virus it does
      not fit or on an immune stack, and otherwise joins the stack. */
  datatype MedicineHit = Cured(cured: Stack, virus: Card) | Incurable | Immune | Protected(protected: Stack)

  /** The test of the loop of `aSuCarta`: a virus the medicine fits, or any
      virus when the organ is the wildcard. */
  predicate Cures(organ: Card, medicine: Card, c: Card)
  {
    IsVirus(c) && (IsWildcard(organ) || Admits(c, medicine))
  }

  /** The position where the loop of `aSuCarta` stops. */
  function FirstCure(s: Stack, organ: Card, medicine: Card): (k: nat)
    ensures k <= |s|
    ensures forall j :: 0 <= j < k ==> !Cures(organ, medicine, s[j])
    ensures k < |s| ==> Cures(organ, medicine, s[k])
  {
    FirstWhere(s, c => Cures(organ, medicine, c))
  }

  function MedicineOnStack(s: Stack, organ: Card, medicine: Card): MedicineHit
  {
    var k := FirstCure(s, organ, medicine);
    if k < |s| then Cured(RemoveFirst(s, s[k]), s[k])
    else if exists c | c in s :: IsVirus(c) then Incurable
    else if IsImmune(s) then Immune
    else Protected(s + [medicine])
  }

  /** The scan of the loop of `aSuCarta`: the position of the first virus
      the medicine cures, or the length of the stack. */
  method ScanForCure(s: Stack, organ: Card, medicine: Card) returns (n: nat)
    ensures n == FirstCure(s, organ, medicine)
  {
    n := 0;
    while n < |s| && !Cures(organ, medicine, s[n])
      invariant n <= |s|
      invariant forall p :: 0 <= p < n ==> !Cures(organ, medicine, s[p])
    {
      n := n + 1;
    }
  }

  /** On one's own well-formed stack and a medicine the organ takes, the effect
      by shape. In particular a virus is always curable: an organ only ever
      carries viruses of its own body part or the wildcard, and the medicine
      fits the organ. */
  lemma MedicineOnShapes(s: Stack, medicine: Card)
    requires WellFormedStack(s)
    requires IsMedicine(medicine) && Admits(s[0], medicine)
    ensures |s| == 2 && IsVirus(s[1]) ==> MedicineOnStack(s, s[0], medicine) == Cured([s[0]], s[1])
    ensures |s| == 1 ==> MedicineOnStack(s, s[0], medicine) == Protected([s[0], medicine])
    ensures |s| == 2 && IsMedicine(s[1]) ==> MedicineOnStack(s, s[0], medicine) == Protected(s + [medicine])
    ensures |s| == 3 ==> MedicineOnStack(s, s[0], medicine) == Immune
    ensures MedicineOnStack(s, s[0], medicine) != Incurable
    ensures MedicineOnStack(s, s[0], medicine).Protected? ==> WellFormedStack(MedicineOnStack(s, s[0], medicine).protected)
    ensures MedicineOnStack(s, s[0], medicine).Cured? ==> WellFormedStack(MedicineOnStack(s, s[0], medicine).cured)
  {
    var organ := s[0];
    var k := FirstCure(s, organ, medicine);
    ImmuneIsThreeCards(s);
    CategoriesAreConstructors(organ);
    CategoriesAreConstructors(medicine);
    TagCases(organ.tag);
    TagCases(medicine.tag);
    if |s| >= 2 {
      CategoriesAreConstructors(s[1]);
      TagCases(s[1].tag);
    }
    if |s| == 3 {
      CategoriesAreConstructors(s[2]);
    }
    if |s| == 2 && IsVirus(s[1]) {
      assert Cures(organ, medicine, s[1]);
      assert k == 1;
      RemoveFirstAt(s, 1);
      assert RemoveAt(s, 1) == [s[0]];
    } else {
      assert k == |s|;
      assert !exists c | c in s :: IsVirus(c);
      if |s| == 1 {
        assert s + [medicine] == [s[0], medicine];
      }
    }
  }
}
