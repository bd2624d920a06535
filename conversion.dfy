/** The display string the content view derives from a predicate: a fixed
    series of replace-all rewrites over the flattened format string, wrapped as
    a SwiftData `#Predicate` literal. */
module Conversion {

  import Text

  /** The keys that get a `person.` qualifier, in the order they are rewritten. */
  const Properties: seq<string> :=
    ["firstName", "lastName", "age", "department", "country", "isBool", "dateOfBirth"]

  const Prefix: string := "#Predicate<EntityPerson> { person in\n    "
  const Suffix: string := "\n}"

  /** The operator texts that get rewritten, in the order they are rewritten. */
  const OperatorKeywords: seq<string> := [" AND ", " OR ", " NOT ", "BEGINSWITH", "ENDSWITH", "CONTAINS"]

  /** Prefix each of `props`, in turn, with `person.` wherever it occurs. */
  function QualifyProperties(s: string, props: seq<string>): string
    decreases |props|
  {
    if props == [] then s
    else QualifyProperties(Text.ReplaceAll(s, props[0], "person." + props[0]), props[1..])
  }

  /** The six operator rewrites, in their order. */
  function RewriteOperators(s: string): string {
    var s1 := Text.ReplaceAll(s, " AND ", " && ");
    var s2 := Text.ReplaceAll(s1, " OR ", " || ");
    var s3 := Text.ReplaceAll(s2, " NOT ", " !");
    var s4 := Text.ReplaceAll(s3, "BEGINSWITH", "hasPrefix");
    var s5 := Text.ReplaceAll(s4, "ENDSWITH", "hasSuffix");
    Text.ReplaceAll(s5, "CONTAINS", "contains")
  }

  /** The text placed between `Prefix` and `Suffix`. */
  function ConvertedBody(predicateString: string): string {
    RewriteOperators(QualifyProperties(predicateString, Properties))
  }

  function SwiftDataPredicate(predicateString: string): string {
    Prefix + ConvertedBody(predicateString) + Suffix
  }

  /** `convertToSwiftDataPredicate`, given the predicate's format string. */
  method ConvertToSwiftDataPredicate(predicateString: string) returns (r: string)
    ensures r == SwiftDataPredicate(predicateString)
    ensures |Prefix| + |Suffix| <= |r|
    ensures r[..|Prefix|] == Prefix && r[|r| - |Suffix|..] == Suffix
  {
    var converted := predicateString;
    for i := 0 to |Properties|
      invariant QualifyProperties(converted, Properties[i..]) == QualifyProperties(predicateString, Properties)
    {
      converted := Text.ReplaceAll(converted, Properties[i], "person." + Properties[i]);
      assert Properties[i..][1..] == Properties[i + 1..];
    }
    assert Properties[|Properties|..] == [];
    converted := Text.ReplaceAll(converted, " AND ", " && ");
    converted := Text.ReplaceAll(converted, " OR ", " || ");
    converted := Text.ReplaceAll(converted, " NOT ", " !");
    converted := Text.ReplaceAll(converted, "BEGINSWITH", "hasPrefix");
    converted := Text.ReplaceAll(converted, "ENDSWITH", "hasSuffix");
    converted := Text.ReplaceAll(converted, "CONTAINS", "contains");
    r := Prefix + converted + Suffix;
  }

  /** Qualifying properties that do not occur changes nothing. */
  lemma {:induction false} QualifyAbsentProperties(s: string, props: seq<string>)
    requires forall k :: k in props ==> !Text.Contains(s, k)
    ensures QualifyProperties(s, props) == s
    decreases |props|
  {
    if props != [] {
      QualifyAbsentProperties(s, props[1..]);
    }
  }

  /** Operator rewrites whose keywords do not occur change nothing. */
  lemma RewriteAbsentOperators(s: string)
    requires !Text.Contains(s, " AND ") && !Text.Contains(s, " OR ") && !Text.Contains(s, " NOT ")
    requires !Text.Contains(s, "BEGINSWITH") && !Text.Contains(s, "ENDSWITH") && !Text.Contains(s, "CONTAINS")
    ensures RewriteOperators(s) == s
  {
  }

  /** A format string that mentions no field name and no operator keyword is
      carried into the body unchanged. */
  lemma ConversionKeepsPlainText(predicateString: string)
    requires forall k :: k in Properties ==> !Text.Contains(predicateString, k)
    requires forall k :: k in OperatorKeywords ==> !Text.Contains(predicateString, k)
    ensures SwiftDataPredicate(predicateString) == Prefix + predicateString + Suffix
  {
    QualifyAbsentProperties(predicateString, Properties);
    assert OperatorKeywords[0] in OperatorKeywords && OperatorKeywords[1] in OperatorKeywords;
    assert OperatorKeywords[2] in OperatorKeywords && OperatorKeywords[3] in OperatorKeywords;
    assert OperatorKeywords[4] in OperatorKeywords && OperatorKeywords[5] in OperatorKeywords;
    RewriteAbsentOperators(predicateString);
  }

  /** No upper-case `CONTAINS` is left in the body: it is the last rewrite and
      its replacement is lower-case. */
  lemma NoUpperCaseContainsInBody(predicateString: string)
    ensures !Text.Contains(ConvertedBody(predicateString), "CONTAINS")
  {
    var s := QualifyProperties(predicateString, Properties);
    var s1 := Text.ReplaceAll(s, " AND ", " && ");
    var s2 := Text.ReplaceAll(s1, " OR ", " || ");
    var s3 := Text.ReplaceAll(s2, " NOT ", " !");
    var s4 := Text.ReplaceAll(s3, "BEGINSWITH", "hasPrefix");
    var s5 := Text.ReplaceAll(s4, "ENDSWITH", "hasSuffix");
    Text.ReplaceAllLeavesNoOccurrence(s5, "CONTAINS", "contains");
  }

  /** One turn of the property loop. */
  lemma QualifyStep(s: string, k: nat)
    requires k < |Properties|
    ensures QualifyProperties(s, Properties[k..])
         == QualifyProperties(Text.ReplaceAll(s, Properties[k], "person." + Properties[k]), Properties[k + 1..])
  {
    assert Properties[k..][1..] == Properties[k + 1..];
  }

  /** A turn of the property loop for a name that does not occur. */
  lemma QualifyAbsentStep(s: string, k: nat, j: nat, cs: set<char>)
    requires k < |Properties| && j < |Properties[k]| && Properties[k][j] in cs && Text.Avoids(s, cs)
    ensures QualifyProperties(s, Properties[k..]) == QualifyProperties(s, Properties[k + 1..])
  {
    Text.AvoidsCharacter(s, cs, Properties[k][j]);
    Text.AbsentCharacterRulesOut(s, Properties[k], j);
    QualifyStep(s, k);
  }

  /** A turn of the property loop for a name that occurs once, behind a
      leading text without its first character. */
  lemma QualifyOnceStep(lead: string, tail: string, k: nat, j: nat, cs: set<char>)
    requires k < |Properties| && j < |Properties[k]| && Properties[k][0] in cs && Properties[k][j] in cs
    requires Text.Avoids(lead, cs) && Text.Avoids(tail, cs)
    ensures QualifyProperties(lead + Properties[k] + tail, Properties[k..])
         == QualifyProperties(lead + "person." + Properties[k] + tail, Properties[k + 1..])
  {
    var p := Properties[k];
    Text.AvoidsCharacter(lead, cs, p[0]);
    Text.AvoidsCharacter(tail, cs, p[j]);
    Text.ReplaceAllSingleOccurrence(lead, p, tail, "person.", j);
    QualifyStep(lead + p + tail, k);
  }

  /** Operator rewrites change nothing in a text without the keywords'
      upper-case letters. */
  lemma RewriteAvoidingOperators(s: string, cs: set<char>)
    requires Text.Avoids(s, cs) && {'A', 'O', 'N', 'B', 'E', 'C'} <= cs
    ensures RewriteOperators(s) == s
  {
    Text.AvoidsCharacter(s, cs, 'A');
    Text.AvoidsCharacter(s, cs, 'O');
    Text.AvoidsCharacter(s, cs, 'N');
    Text.AvoidsCharacter(s, cs, 'B');
    Text.AvoidsCharacter(s, cs, 'E');
    Text.AvoidsCharacter(s, cs, 'C');
    Text.AbsentCharacterRulesOut(s, " AND ", 1);
    Text.AbsentCharacterRulesOut(s, " OR ", 1);
    Text.AbsentCharacterRulesOut(s, " NOT ", 1);
    Text.AbsentCharacterRulesOut(s, "BEGINSWITH", 0);
    Text.AbsentCharacterRulesOut(s, "ENDSWITH", 0);
    Text.AbsentCharacterRulesOut(s, "CONTAINS", 0);
    RewriteAbsentOperators(s);
  }

  /** The first letters of the property names other than `age`, and the
      upper-case letters of the operator keywords. */
  const NameCharacters: set<char> := {'f', 'l', 'd', 'c', 'i', 'A', 'B', 'C', 'E', 'N', 'O'}

  /** A text in which no property name and no operator keyword can start. */
  ghost predicate NoNameCharacters(v: string) {
    Text.Avoids(v, NameCharacters + {'a'})
  }

  /** The pieces of a format `c eq pre a post q` and the qualifier `pp`:
      only `c` may hold a `c` and only `a` an `a`, and none holds another
      name-starting or keyword letter. */
  ghost predicate PiecesAvoidNames(c: string, eq: string, pre: string, a: string, post: string, q: string, pp: string) {
    && Text.Avoids(c, NameCharacters + {'a'} - {'c'}) && Text.Avoids(a, NameCharacters)
    && Text.Avoids(pp, NameCharacters + {'a'})
    && Text.Avoids(eq, NameCharacters + {'a'}) && Text.Avoids(q, NameCharacters + {'a'})
    && Text.Avoids(pre, NameCharacters + {'a'}) && Text.Avoids(post, NameCharacters + {'a'})
  }

  /** The letters `f`, `l`, `d` and `i`, with which the property names
      other than `age` and `country` start, are in none of the pieces. */
  lemma PiecesAvoidOtherNames(c: string, eq: string, pre: string, a: string, post: string, q: string, pp: string)
    requires PiecesAvoidNames(c, eq, pre, a, post, q, pp)
    ensures Text.Avoids(c + eq + pre + a + (post + q), {'f', 'l', 'd', 'i'})
    ensures Text.Avoids(c + eq + pre + pp + a + (post + q), {'f', 'l', 'd', 'i'})
    ensures Text.Avoids(pp + c + (eq + pre + pp + a + (post + q)), {'f', 'l', 'd', 'i'})
  {
    var few := {'f', 'l', 'd', 'i'};
    var cs := NameCharacters + {'a'};
    Text.AvoidsSubset(c, NameCharacters + {'a'} - {'c'}, few);
    Text.AvoidsSubset(a, NameCharacters, few);
    Text.AvoidsSubset(pp, cs, few);
    Text.AvoidsSubset(eq, cs, few);
    Text.AvoidsSubset(pre, cs, few);
    Text.AvoidsSubset(post, cs, few);
    Text.AvoidsSubset(q, cs, few);
    Text.AvoidsConcat(c, eq, few);
    Text.AvoidsConcat(c + eq, pre, few);
    Text.AvoidsConcat(post, q, few);
    Text.AvoidsConcat(c + eq + pre, a, few);
    Text.AvoidsConcat(c + eq + pre + a, post + q, few);
    Text.AvoidsConcat(c + eq + pre, pp, few);
    Text.AvoidsConcat(c + eq + pre + pp, a, few);
    Text.AvoidsConcat(c + eq + pre + pp + a, post + q, few);
    Text.AvoidsConcat(pp, c, few);
    Text.AvoidsConcat(eq, pre, few);
    Text.AvoidsConcat(eq + pre, pp, few);
    Text.AvoidsConcat(eq + pre + pp, a, few);
    Text.AvoidsConcat(eq + pre + pp + a, post + q, few);
    Text.AvoidsConcat(pp + c, eq + pre + pp + a + (post + q), few);
  }

  /** The text around the `age` in the value has no `a`. */
  lemma PiecesAroundAge(c: string, eq: string, pre: string, a: string, post: string, q: string, pp: string)
    requires PiecesAvoidNames(c, eq, pre, a, post, q, pp)
    ensures Text.Avoids(c + eq + pre, {'a'}) && Text.Avoids(post + q, {'a'})
  {
    var cs := NameCharacters + {'a'};
    Text.AvoidsSubset(c, NameCharacters + {'a'} - {'c'}, {'a'});
    Text.AvoidsSubset(eq, cs, {'a'});
    Text.AvoidsSubset(pre, cs, {'a'});
    Text.AvoidsSubset(post, cs, {'a'});
    Text.AvoidsSubset(q, cs, {'a'});
    Text.AvoidsConcat(c, eq, {'a'});
    Text.AvoidsConcat(c + eq, pre, {'a'});
    Text.AvoidsConcat(post, q, {'a'});
  }

  /** The text behind the `country` in front has no `c`. */
  lemma PiecesBehindCountry(c: string, eq: string, pre: string, a: string, post: string, q: string, pp: string)
    requires PiecesAvoidNames(c, eq, pre, a, post, q, pp)
    ensures Text.Avoids(eq + pre + pp + a + (post + q), {'c'})
  {
    var cs := NameCharacters + {'a'};
    Text.AvoidsSubset(a, NameCharacters, {'c'});
    Text.AvoidsSubset(eq, cs, {'c'});
    Text.AvoidsSubset(pre, cs, {'c'});
    Text.AvoidsSubset(post, cs, {'c'});
    Text.AvoidsSubset(q, cs, {'c'});
    Text.AvoidsSubset(pp, cs, {'c'});
    Text.AvoidsConcat(eq, pre, {'c'});
    Text.AvoidsConcat(eq + pre, pp, {'c'});
    Text.AvoidsConcat(eq + pre + pp, a, {'c'});
    Text.AvoidsConcat(post, q, {'c'});
    Text.AvoidsConcat(eq + pre + pp + a, post + q, {'c'});
  }

  /** The first four property names on a format `c eq pre a post q` whose
      only property names are the `country` in front and the `age` inside
      the value: only `age` is qualified. */
  lemma QualifyAgeInValue(c: string, eq: string, pre: string, a: string, post: string, q: string, pp: string)
    requires c == Properties[4] && a == Properties[2] && pp == "person."
    requires PiecesAvoidNames(c, eq, pre, a, post, q, pp)
    ensures QualifyProperties(c + eq + pre + a + (post + q), Properties)
         == QualifyProperties(c + eq + pre + pp + a + (post + q), Properties[4..])
  {
    var few := {'f', 'l', 'd', 'i'};
    var s0 := c + eq + pre + a + (post + q);
    var s1 := c + eq + pre + pp + a + (post + q);
    PiecesAvoidOtherNames(c, eq, pre, a, post, q, pp);
    assert Properties[0..] == Properties;
    QualifyAbsentStep(s0, 0, 0, few);
    QualifyAbsentStep(s0, 1, 0, few);
    // age occurs once, inside the value
    PiecesAroundAge(c, eq, pre, a, post, q, pp);
    QualifyOnceStep(c + eq + pre, post + q, 2, 0, {'a'});
    QualifyAbsentStep(s1, 3, 0, few);
  }

  /** The format with the front property name split off. */
  lemma RegroupFront(c: string, eq: string, pre: string, a: string, post: string, q: string, pp: string)
    ensures c + eq + pre + pp + a + (post + q) == [] + c + (eq + pre + pp + a + (post + q))
    ensures [] + pp + c + (eq + pre + pp + a + (post + q)) == pp + c + (eq + pre + pp + a + (post + q))
  {
  }

  /** The last four property names on the same format: only the `country`
      in front is qualified. */
  lemma QualifyCountryInFront(c: string, eq: string, pre: string, a: string, post: string, q: string, pp: string)
    requires c == Properties[4] && a == Properties[2] && pp == "person."
    requires PiecesAvoidNames(c, eq, pre, a, post, q, pp)
    ensures QualifyProperties(c + eq + pre + pp + a + (post + q), Properties[4..])
         == pp + c + (eq + pre + pp + a + (post + q))
  {
    var few := {'f', 'l', 'd', 'i'};
    var rest := eq + pre + pp + a + (post + q);
    var s1 := c + eq + pre + pp + a + (post + q);
    var s2 := pp + c + rest;
    PiecesAvoidOtherNames(c, eq, pre, a, post, q, pp);
    // country occurs once, in front
    PiecesBehindCountry(c, eq, pre, a, post, q, pp);
    RegroupFront(c, eq, pre, a, post, q, pp);
    QualifyOnceStep([], rest, 4, 0, {'c'});
    QualifyAbsentStep(s2, 5, 0, few);
    QualifyAbsentStep(s2, 6, 0, few);
    assert Properties[7..] == [];
  }

  /** The operator rewrites leave the qualified format alone. */
  lemma RewriteInsideValue(c: string, eq: string, pre: string, a: string, post: string, q: string, pp: string)
    requires PiecesAvoidNames(c, eq, pre, a, post, q, pp)
    ensures RewriteOperators(pp + c + (eq + pre + pp + a + (post + q)))
         == pp + c + (eq + pre + pp + a + (post + q))
  {
    var up := {'A', 'O', 'N', 'B', 'E', 'C'};
    var cs := NameCharacters + {'a'};
    Text.AvoidsSubset(c, NameCharacters + {'a'} - {'c'}, up);
    Text.AvoidsSubset(a, NameCharacters, up);
    Text.AvoidsSubset(pp, cs, up);
    Text.AvoidsSubset(eq, cs, up);
    Text.AvoidsSubset(pre, cs, up);
    Text.AvoidsSubset(post, cs, up);
    Text.AvoidsSubset(q, cs, up);
    Text.AvoidsConcat(pp, c, up);
    Text.AvoidsConcat(eq, pre, up);
    Text.AvoidsConcat(eq + pre, pp, up);
    Text.AvoidsConcat(eq + pre + pp, a, up);
    Text.AvoidsConcat(post, q, up);
    Text.AvoidsConcat(eq + pre + pp + a, post + q, up);
    Text.AvoidsConcat(pp + c, eq + pre + pp + a + (post + q), up);
    RewriteAvoidingOperators(pp + c + (eq + pre + pp + a + (post + q)), up);
  }

  /** The property loop and the operator rewrites on a format `c eq pre a
      post q` whose only property names are the `country` in front and the
      `age` inside the value: both are qualified. */
  lemma QualifyInsideValue(c: string, eq: string, pre: string, a: string, post: string, q: string, pp: string)
    requires c == Properties[4] && a == Properties[2] && pp == "person."
    requires PiecesAvoidNames(c, eq, pre, a, post, q, pp)
    ensures ConvertedBody(c + eq + pre + a + (post + q)) == pp + c + (eq + pre + pp + a + (post + q))
  {
    QualifyAgeInValue(c, eq, pre, a, post, q, pp);
    QualifyCountryInFront(c, eq, pre, a, post, q, pp);
    RewriteInsideValue(c, eq, pre, a, post, q, pp);
  }

  /** The sample format and its conversion, regrouped into the pieces of
      `QualifyInsideValue`. */
  lemma RegroupSample(k: string, k2: string, pa: string, c: string, eq: string, pre: string, a: string,
                      post: string, q: string, pp: string)
    requires k == c + eq && k2 == pp + c + eq && pa == pp + a
    ensures k + pre + a + post + q == c + eq + pre + a + (post + q)
    ensures k2 + pre + pa + post + q == pp + c + (eq + pre + pp + a + (post + q))
  {
  }

  /** The fixed pieces of the sample format and of its conversion. */
  lemma SamplePieces()
    ensures Text.Avoids("country", NameCharacters + {'a'} - {'c'}) && Text.Avoids("age", NameCharacters)
    ensures Text.Avoids("person.", NameCharacters + {'a'})
    ensures Text.Avoids(" == \"", NameCharacters + {'a'}) && Text.Avoids("\"", NameCharacters + {'a'})
    ensures "country == \"" == "country" + " == \"" && "person.age" == "person." + "age"
    ensures "person.country == \"" == "person." + "country" + " == \""
  {
  }

  /** The property rewrites run over the flattened text and know nothing of
      quoting: a property name is qualified wherever it stands, inside a
      quoted value too. */
  lemma PropertyNameInsideValueIsQualified(pre: string, post: string)
    requires NoNameCharacters(pre) && NoNameCharacters(post)
    ensures ConvertedBody("country == \"" + pre + "age" + post + "\"")
         == "person.country == \"" + pre + "person.age" + post + "\""
  {
    SamplePieces();
    QualifyInsideValue("country", " == \"", pre, "age", post, "\"", "person.");
    RegroupSample("country == \"", "person.country == \"", "person.age",
                  "country", " == \"", pre, "age", post, "\"", "person.");
  }

  /** The search `country == "Page"`: the `age` inside the value is
      qualified too. */
  lemma PageSearchIsRewritten()
    ensures ConvertedBody("country == \"Page\"") == "person.country == \"Pperson.age\""
  {
    PagePieces();
    PropertyNameInsideValueIsQualified("P", "");
  }

  /** The search `country == "Page"` cut at the `age` in its value. */
  lemma PagePieces()
    ensures NoNameCharacters("P") && NoNameCharacters("")
    ensures "country == \"" + "P" + "age" + "" + "\"" == "country == \"Page\""
    ensures "person.country == \"" + "P" + "person.age" + "" + "\"" == "person.country == \"Pperson.age\""
  {
  }
}
