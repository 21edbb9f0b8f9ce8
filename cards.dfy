/** The card catalogue (`Carta`): a closed set of 21 values, their categories,
    their enum names and the compatibility relation `admite`. */
module Cards {
  import opened Wrappers

  /** The body part a non-treatment card is tied to; the enum names spell it
      as the suffix `COMODIN`, `1`, `2`, `3` or `4`. */
  datatype Tag = Wildcard | Bone | Heart | Brain | Stomach

  /** One constructor per enum constant, the tagged ones grouped by category:
      5 treatments, 5 medicines, 5 organs, 5 viruses and the hidden card. */
  datatype Card =
    | AllDiscard         // TRATAMIENTO_DESCARTE
    | Infection          // TRATAMIENTO_INFECCION
    | SingleTransplant   // TRATAMIENTO_TRANSPLANTA_1
    | TotalTransplant    // TRATAMIENTO_TRANSPLANTA_TODO
    | OrganTheft         // TRATAMIENTO_ROBAR_ORGANO
    | Medicine(tag: Tag) // MEDICINA_*
    | Organ(tag: Tag)    // ORGANO_*
    | Virus(tag: Tag)    // VIRUS_*
    | Hidden             // OCULTA, only ever shown in place of a concealed card

  function TreatmentCards(): seq<Card>
  {
    [AllDiscard, Infection, SingleTransplant, TotalTransplant, OrganTheft]
  }

  function MedicineCards(): seq<Card>
  {
    [Medicine(Wildcard), Medicine(Bone), Medicine(Heart), Medicine(Brain), Medicine(Stomach)]
  }

  /** `getOrganos`: the five organ cards. */
  function OrganCards(): seq<Card>
  {
    [Organ(Wildcard), Organ(Bone), Organ(Heart), Organ(Brain), Organ(Stomach)]
  }

  function VirusCards(): seq<Card>
  {
    [Virus(Wildcard), Virus(Bone), Virus(Heart), Virus(Brain), Virus(Stomach)]
  }

  /** The enum constants in declaration order. */
  function Catalogue(): seq<Card>
  {
    TreatmentCards() + MedicineCards() + OrganCards() + VirusCards() + [Hidden]
  }

  predicate IsOrgan(c: Card)
  {
    c in OrganCards()
  }

  predicate IsMedicine(c: Card)
  {
    c == Medicine(Wildcard) || c == Medicine(Bone) || c == Medicine(Heart) || c == Medicine(Brain) || c == Medicine(Stomach)
  }

  predicate IsVirus(c: Card)
  {
    c == Virus(Wildcard) || c == Virus(Bone) || c == Virus(Heart) || c == Virus(Brain) || c == Virus(Stomach)
  }

  predicate IsWildcard(c: Card)
  {
    c == Medicine(Wildcard) || c == Virus(Wildcard) || c == Organ(Wildcard)
  }

  lemma TagCases(t: Tag)
    ensures t == Wildcard || t == Bone || t == Heart || t == Brain || t == Stomach
  {
  }

  /** The category tests agree with the constructor, which makes them
      pairwise disjoint and false for the treatments and the hidden card. */
  lemma CategoriesAreConstructors(c: Card)
    ensures IsOrgan(c) <==> c.Organ?
    ensures IsMedicine(c) <==> c.Medicine?
    ensures IsVirus(c) <==> c.Virus?
    ensures IsWildcard(c) <==> (c.Organ? || c.Medicine? || c.Virus?) && c.tag == Wildcard
  {
    if c.Organ? || c.Medicine? || c.Virus? {
      TagCases(c.tag);
    }
  }

  /** The catalogue lists each of the 21 values once, and each category test
      holds for exactly the five cards of its list. */
  lemma CatalogueIsTheEnum(c: Card)
    ensures |Catalogue()| == 21
    ensures c in Catalogue()
    ensures IsOrgan(c) <==> c in OrganCards()
    ensures IsMedicine(c) <==> c in MedicineCards()
    ensures IsVirus(c) <==> c in VirusCards()
    ensures IsWildcard(c) <==> c in [Medicine(Wildcard), Organ(Wildcard), Virus(Wildcard)]
  {
    CategoriesAreConstructors(c);
    if c.Organ? || c.Medicine? || c.Virus? {
      TagCases(c.tag);
    }
  }

  // ---------------------------------------------------------------------------
  // Enum names

  function TagWord(t: Tag): string
  {
    match t
    case Wildcard => "COMODIN"
    case Bone => "1"
    case Heart => "2"
    case Brain => "3"
    case Stomach => "4"
  }

  /** The enum name cut at each underscore. */
  function Segments(c: Card): seq<string>
  {
    match c
    case AllDiscard => ["TRATAMIENTO", "DESCARTE"]
    case Infection => ["TRATAMIENTO", "INFECCION"]
    case SingleTransplant => ["TRATAMIENTO", "TRANSPLANTA", "1"]
    case TotalTransplant => ["TRATAMIENTO", "TRANSPLANTA", "TODO"]
    case OrganTheft => ["TRATAMIENTO", "ROBAR", "ORGANO"]
    case Medicine(t) => ["MEDICINA", TagWord(t)]
    case Organ(t) => ["ORGANO", TagWord(t)]
    case Virus(t) => ["VIRUS", TagWord(t)]
    case Hidden => ["OCULTA"]
  }

  function Join(parts: seq<string>, sep: char): string
    requires |parts| > 0
  {
    if |parts| == 1 then parts[0] else parts[0] + [sep] + Join(parts[1..], sep)
  }

  /** `String.split` on a one-character separator (trailing empty pieces are
      kept; no enum name has any). */
  function Split(s: string, sep: char): (parts: seq<string>)
    ensures |parts| > 0
  {
    if s == [] then [""]
    else
      var rest := Split(s[1..], sep);
      if s[0] == sep then [""] + rest else [[s[0]] + rest[0]] + rest[1..]
  }

  /** `name()`. */
  function Name(c: Card): string
  {
    Join(Segments(c), '_')
  }

  lemma {:induction false} SplitPrefix(p: string, t: string, sep: char)
    requires sep !in p
    ensures Split(p + t, sep) == [p + Split(t, sep)[0]] + Split(t, sep)[1..]
  {
    if p != [] {
      assert (p + t)[1..] == p[1..] + t;
      SplitPrefix(p[1..], t, sep);
      assert [p[0]] + (p[1..] + Split(t, sep)[0]) == p + Split(t, sep)[0];
    } else {
      var r := Split(t, sep);
      assert p + t == t;
      assert p + r[0] == r[0];
      assert r == [r[0]] + r[1..];
    }
  }

  /** Splitting undoes joining when no piece contains the separator. */
  lemma {:induction false} SplitJoin(parts: seq<string>, sep: char)
    requires |parts| > 0
    requires forall k :: 0 <= k < |parts| ==> sep !in parts[k]
    ensures Split(Join(parts, sep), sep) == parts
  {
    if |parts| == 1 {
      SplitPrefix(parts[0], [], sep);
      assert parts[0] + [] == parts[0];
    } else {
      SplitJoin(parts[1..], sep);
      var t := [sep] + Join(parts[1..], sep);
      assert parts[0] + [sep] + Join(parts[1..], sep) == parts[0] + t;
      SplitPrefix(parts[0], t, sep);
      assert t[1..] == Join(parts[1..], sep);
      assert Split(t, sep) == [""] + parts[1..];
      assert parts[0] + "" == parts[0];
    }
  }

  lemma SegmentFacts(c: Card)
    ensures forall k :: 0 <= k < |Segments(c)| ==> '_' !in Segments(c)[k]
    ensures Segments(c)[0] == "ORGANO" <==> c.Organ?
    ensures Segments(c)[0] == "VIRUS" <==> c.Virus?
    ensures Segments(c)[0] == "MEDICINA" <==> c.Medicine?
    ensures Segments(c)[0] == "TRATAMIENTO" <==> c in TreatmentCards()
    ensures c.Organ? || c.Virus? || c.Medicine? ==> Segments(c) == [Segments(c)[0], TagWord(c.tag)]
  {
    if c.Organ? || c.Virus? || c.Medicine? {
      TagCases(c.tag);
    }
  }

  lemma SplitName(c: Card)
    ensures Split(Name(c), '_') == Segments(c)
  {
    SegmentFacts(c);
    SplitJoin(Segments(c), '_');
  }

  lemma TagWordsDistinct(s: Tag, t: Tag)
    ensures TagWord(s) == TagWord(t) <==> s == t
    ensures TagWord(s) == "COMODIN" <==> s == Wildcard
  {
    TagCases(s);
    TagCases(t);
  }

  /** No two constants share a name. */
  lemma NamesDistinct(a: Card, b: Card)
    ensures Name(a) == Name(b) ==> a == b
  {
    SplitName(a);
    SplitName(b);
    SegmentFacts(a);
    SegmentFacts(b);
    if Segments(a) == Segments(b) && (a.Organ? || a.Virus? || a.Medicine?) {
      TagWordsDistinct(a.tag, b.tag);
    }
  }

  lemma CatalogueDistinct()
    ensures forall i, j :: 0 <= i < j < |Catalogue()| ==> Catalogue()[i] != Catalogue()[j]
  {
    var cs := Catalogue();
    forall i, j | 0 <= i < j < |cs| ensures cs[i] != cs[j] {
      CategoriesAreConstructors(cs[i]);
    }
  }

  lemma AllInCatalogue()
    ensures forall c: Card :: c in Catalogue()
  {
    forall c: Card ensures c in Catalogue() {
      CatalogueIsTheEnum(c);
    }
  }

  /** `valueOf` over the constants `cs`. */
  function FindByName(cs: seq<Card>, s: string): (r: Option<Card>)
    ensures r.Some? ==> r.value in cs && Name(r.value) == s
    ensures r.None? ==> forall c :: c in cs ==> Name(c) != s
  {
    if cs == [] then None
    else if Name(cs[0]) == s then Some(cs[0])
    else FindByName(cs[1..], s)
  }

  /** `Carta.from`: the constant whose enum name is `s`; a missing string
      (Java's null) or an unknown name is an error. */
  function From(s: Option<string>): (r: Result<Card>)
    ensures r.Ok? <==> exists c :: s == Some(Name(c))
    ensures r.Ok? ==> s == Some(Name(r.value))
    ensures r.Err? ==> r.error == InvalidCard
  {
    AllInCatalogue();
    if s.None? then Err(InvalidCard)
    else match FindByName(Catalogue(), s.value)
      case Some(c) => Ok(c)
      case None => Err(InvalidCard)
  }

  /** Parsing the name of a card gives the card back. */
  lemma FromName(c: Card)
    ensures From(Some(Name(c))) == Ok(c)
  {
    var r := From(Some(Name(c)));
    NamesDistinct(c, r.value);
  }

  // ---------------------------------------------------------------------------
  // Compatibility

  /** `admite` as the source computes it: split both enum names, compare the
      category words, then the tag words. */
  predicate AdmitsByName(a: Card, b: Card)
  {
    SplitName(a);
    SplitName(b);
    SegmentFacts(a);
    SegmentFacts(b);
    var x := Split(Name(a), '_');
    var y := Split(Name(b), '_');
    if (x[0] == "ORGANO" && (y[0] == "VIRUS" || y[0] == "MEDICINA"))
       || (x[0] == "VIRUS" && y[0] == "MEDICINA")
       || (x[0] == "MEDICINA" && y[0] == "VIRUS")
    then x[1] == "COMODIN" || y[1] == "COMODIN" || x[1] == y[1]
    else false
  }

  predicate TagsMatch(s: Tag, t: Tag)
  {
    s == Wildcard || t == Wildcard || s == t
  }

  /** The compatibility table over (category, tag): an organ takes a virus or
      a medicine, a virus takes a medicine and a medicine takes a virus, when
      either is a wildcard or both carry the same body part. */
  predicate Admits(a: Card, b: Card)
  {
    match a
    case Organ(s) => (b.Virus? || b.Medicine?) && TagsMatch(s, b.tag)
    case Virus(s) => b.Medicine? && TagsMatch(s, b.tag)
    case Medicine(s) => b.Virus? && TagsMatch(s, b.tag)
    case _ => false
  }


  /** The string-splitting definition and the table are the same relation. */
  lemma AdmitsByNameIsAdmits(a: Card, b: Card)
    ensures AdmitsByName(a, b) == Admits(a, b)
  {
    SplitName(a);
    SplitName(b);
    SegmentFacts(a);
    SegmentFacts(b);
    if (a.Organ? || a.Medicine? || a.Virus?) && (b.Organ? || b.Medicine? || b.Virus?) {
      TagWordsDistinct(a.tag, b.tag);
      TagWordsDistinct(a.tag, a.tag);
      TagWordsDistinct(b.tag, b.tag);
    }
  }

  /** Only the three category pairs can be compatible. */
  lemma AdmitsOnlyCategoryPairs(a: Card, b: Card)
    ensures Admits(a, b) ==>
      (IsOrgan(a) && (IsVirus(b) || IsMedicine(b))) || (IsVirus(a) && IsMedicine(b)) || (IsMedicine(a) && IsVirus(b))
    ensures IsOrgan(a) && IsOrgan(b) ==> !Admits(a, b)
    ensures !(a.Organ? || a.Medicine? || a.Virus?) ==> !Admits(a, b) && !Admits(b, a)
  {
  }

  /** Within an allowed category pair, compatibility is "a wildcard on either
      side, or the same body part". */
  lemma AdmitsByTag(a: Card, b: Card)
    requires (IsOrgan(a) && (IsVirus(b) || IsMedicine(b))) || (IsVirus(a) && IsMedicine(b)) || (IsMedicine(a) && IsVirus(b))
    ensures Admits(a, b) <==> IsWildcard(a) || IsWildcard(b) || a.tag == b.tag
  {
  }

  /** A virus takes a medicine exactly when that medicine takes the virus. */
  lemma AdmitsSymmetricOnVirusAndMedicine(v: Card, m: Card)
    requires IsVirus(v) && IsMedicine(m)
    ensures Admits(v, m) == Admits(m, v)
  {
  }
}
