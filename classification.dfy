/**
 * The document category derived from a file name
 * (`SantanderVectorDB._classify_document_type`).
 */
module Classification {
  import opened Text

  const InformeGestion := "informe_gestion"
  const InformeEjecutivo := "informe_ejecutivo"
  const TableroControl := "tablero_control"
  const DatosComplementarios := "datos_complementarios"
  const DocumentoGeneral := "documento_general"

  /** Every category the classifier can produce. */
  const Categories: set<string> :=
    {InformeGestion, InformeEjecutivo, TableroControl, DatosComplementarios, DocumentoGeneral}

  /** The category of a file, decided on its lowercased name by the first test that holds. */
  function ClassifyDocumentType(filename: string): (category: string)
    ensures category in Categories
  {
    var name := Lower(filename);
    if Contains(name, "informe") && Contains(name, "gestion") then InformeGestion
    else if Contains(name, "informe") && Contains(name, "ejecutivo") then InformeEjecutivo
    else if Contains(name, "tablero") && Contains(name, "control") then TableroControl
    else if EndsWith(name, ".xlsx") && StartsWith(name, "6") then DatosComplementarios
    else DocumentoGeneral
  }

  /** A test on a lowercased file name. */
  datatype Test =
    | ContainsBoth(first: string, second: string)
    | ExtensionAndPrefix(extension: string, prefix: string)

  /** A row of the rule table: a test and the category it assigns. */
  datatype Rule = Rule(test: Test, category: string)

  predicate Holds(t: Test, name: string) {
    match t
    case ContainsBoth(a, b) => Contains(name, a) && Contains(name, b)
    case ExtensionAndPrefix(ext, p) => EndsWith(name, ext) && StartsWith(name, p)
  }

  /** The naming convention as an ordered table, highest priority first. */
  const Rules: seq<Rule> := [
    Rule(ContainsBoth("informe", "gestion"), InformeGestion),
    Rule(ContainsBoth("informe", "ejecutivo"), InformeEjecutivo),
    Rule(ContainsBoth("tablero", "control"), TableroControl),
    Rule(ExtensionAndPrefix(".xlsx", "6"), DatosComplementarios)
  ]

  /** Evaluates an ordered rule table top to bottom; the first rule that holds decides. */
  function FirstMatch(rules: seq<Rule>, name: string, fallback: string): (category: string)
    decreases |rules|
  {
    if rules == [] then fallback
    else if Holds(rules[0].test, name) then rules[0].category
    else FirstMatch(rules[1..], name, fallback)
  }

  /** First-match semantics: when rule k is the earliest rule that holds, its category is the answer. */
  lemma {:induction false} FirstMatchEarliest(rules: seq<Rule>, name: string, fallback: string, k: nat)
    requires k < |rules| && Holds(rules[k].test, name)
    requires forall j :: 0 <= j < k ==> !Holds(rules[j].test, name)
    ensures FirstMatch(rules, name, fallback) == rules[k].category
    decreases k
  {
    if k > 0 {
      assert !Holds(rules[0].test, name);
      var rest := rules[1..];
      assert rest[k - 1] == rules[k];
      forall j | 0 <= j < k - 1 ensures !Holds(rest[j].test, name) {
        assert rest[j] == rules[j + 1];
      }
      FirstMatchEarliest(rest, name, fallback, k - 1);
    }
  }

  /** When no rule holds, the fallback is the answer. */
  lemma {:induction false} FirstMatchFallback(rules: seq<Rule>, name: string, fallback: string)
    requires forall k :: 0 <= k < |rules| ==> !Holds(rules[k].test, name)
    ensures FirstMatch(rules, name, fallback) == fallback
    decreases |rules|
  {
    if rules != [] {
      var rest := rules[1..];
      assert !Holds(rules[0].test, name);
      forall k | 0 <= k < |rest| ensures !Holds(rest[k].test, name) {
        assert rest[k] == rules[k + 1];
      }
      FirstMatchFallback(rest, name, fallback);
    }
  }

  /** The classifier is the ordered rule table applied to the lowercased name, with the general category as fallback. */
  lemma ClassifyIsFirstMatch(filename: string)
    ensures ClassifyDocumentType(filename) == FirstMatch(Rules, Lower(filename), DocumentoGeneral)
  {
    var name := Lower(filename);
    var r1, r2, r3 := Rules[1..], Rules[2..], Rules[3..];
    assert r1[1..] == r2 && r2[1..] == r3 && r3[1..] == [];
    assert r1[0] == Rules[1] && r2[0] == Rules[2] && r3[0] == Rules[3];
    assert FirstMatch(r3, name, DocumentoGeneral) ==
      if EndsWith(name, ".xlsx") && StartsWith(name, "6") then DatosComplementarios else DocumentoGeneral;
    assert FirstMatch(r2, name, DocumentoGeneral) ==
      if Contains(name, "tablero") && Contains(name, "control") then TableroControl
      else FirstMatch(r3, name, DocumentoGeneral);
    assert FirstMatch(r1, name, DocumentoGeneral) ==
      if Contains(name, "informe") && Contains(name, "ejecutivo") then InformeEjecutivo
      else FirstMatch(r2, name, DocumentoGeneral);
  }

  /** `datos_complementarios` exactly for a lowercased name ending in ".xlsx" and starting with "6" that no earlier rule claims. */
  lemma DatosComplementariosIff(filename: string)
    ensures var name := Lower(filename);
      ClassifyDocumentType(filename) == DatosComplementarios <==>
        && EndsWith(name, ".xlsx") && StartsWith(name, "6")
        && !(Contains(name, "informe") && Contains(name, "gestion"))
        && !(Contains(name, "informe") && Contains(name, "ejecutivo"))
        && !(Contains(name, "tablero") && Contains(name, "control"))
  {
  }

  /** A name holding "informe", "gestion" and "ejecutivo" goes to the management report: the earlier rule wins. */
  lemma GestionBeatsEjecutivo(filename: string)
    requires var name := Lower(filename);
      Contains(name, "informe") && Contains(name, "gestion") && Contains(name, "ejecutivo")
    ensures ClassifyDocumentType(filename) == InformeGestion
  {
  }

  /** A name no rule claims falls back to the general category. */
  lemma NoRuleMeansGeneral(filename: string)
    requires forall k :: 0 <= k < |Rules| ==> !Holds(Rules[k].test, Lower(filename))
    ensures ClassifyDocumentType(filename) == DocumentoGeneral
  {
    ClassifyIsFirstMatch(filename);
    FirstMatchFallback(Rules, Lower(filename), DocumentoGeneral);
  }
}
