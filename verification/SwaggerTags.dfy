/** The tag table of scripts/patch-swagger-extensions.py. */
module SwaggerTags {
  import opened Lines

  datatype Tag = Tag(name: string, description: string)

  // Renders on one line each: no character at which splitlines() breaks.
  ghost predicate OneLine(tags: seq<Tag>) {
    forall t | t in tags :: NoBreak(t.name) && NoBreak(t.description)
  }

  const WRITES := "Platform operator writes \U{2014} departments "
  const DEPARTMENTS := "(CAT-1, CAT-2, CAT-3)"
  const PLANS := " and plans (CAT-4, CAT-5)"

  const TAGS := [
    Tag("departments", "Global department catalog (CAT-6, CAT-7)"),
    Tag("operator", WRITES + DEPARTMENTS + PLANS),
    Tag("internal", "In-mesh bulk catalog reads (CAT-I1, CAT-I2)")
  ]

  // The descriptions are long literals, checked one by one.
  lemma CatalogIsOneLine()
    ensures NoBreak("departments") && NoBreak("Global department catalog (CAT-6, CAT-7)")
  {}

  lemma OperatorIsOneLine()
    ensures NoBreak("operator") && NoBreak(WRITES)
  {}

  lemma ListsAreOneLine()
    ensures NoBreak(DEPARTMENTS) && NoBreak(PLANS)
  {}

  lemma InternalIsOneLine()
    ensures NoBreak("internal") && NoBreak("In-mesh bulk catalog reads (CAT-I1, CAT-I2)")
  {}

  // The three tags by name, in this order; each renders on one line.
  lemma TableIsOneLine()
    ensures |TAGS| == 3 && OneLine(TAGS)
    ensures TAGS[0].name == "departments" && TAGS[1].name == "operator" && TAGS[2].name == "internal"
  {
    hide NoBreak;
    CatalogIsOneLine();
    OperatorIsOneLine();
    ListsAreOneLine();
    NoBreakConcat(WRITES, DEPARTMENTS);
    NoBreakConcat(WRITES + DEPARTMENTS, PLANS);
    InternalIsOneLine();
    assert forall t | t in TAGS :: t == TAGS[0] || t == TAGS[1] || t == TAGS[2];
  }
}
