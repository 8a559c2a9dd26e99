/**
  The route prefixes the view sets of the example application
  (examples/viewsets.py) derive from their class names, and an example
  showing that deriving a prefix twice is not deriving it once.
 */
module Scenarios {
  import opened Basics
  import opened Text
  import opened Prefix
  import opened PrefixOfWords

  // ---------------------------------------------------------------------
  // Spelling helpers: lower-casing and joining short literal words.

  lemma LowerCapitalized(w: string)
    requires IsCapitalizedWord(w)
    ensures Lower(w) == [ToLower(w[0])] + w[1..]
  {
    LowerIsPointwise(w);
  }

  lemma CapitalSuffixSpelling()
    ensures Lower("ViewSet") == "viewset"
  {
  }

  lemma SmallSuffixSpelling()
    ensures Lower("viewset") == "viewset"
  {
    LowerIsPointwise("viewset");
  }

  lemma SuffixSpelling()
    ensures Lower("ViewSet") == "viewset"
    ensures Lower("viewset") == "viewset"
  {
    CapitalSuffixSpelling();
    SmallSuffixSpelling();
  }

  lemma OneWord(a: string)
    requires IsCapitalizedWord(a)
    ensures AllCapitalized([a])
    ensures Concat([a]) == a
    ensures SnakeCase([a]) == Lower(a)
  {
  }

  lemma TwoWords(a: string, b: string)
    requires IsCapitalizedWord(a) && IsCapitalizedWord(b)
    ensures AllCapitalized([a, b])
    ensures Concat([a, b]) == a + b
    ensures SnakeCase([a, b]) == Lower(a) + "_" + Lower(b)
  {
    assert [a, b][1..] == [b];
    OneWord(b);
  }

  lemma ThreeWords(a: string, b: string, c: string)
    requires IsCapitalizedWord(a) && IsCapitalizedWord(b) && IsCapitalizedWord(c)
    ensures AllCapitalized([a, b, c])
    ensures Concat([a, b, c]) == a + b + c
    ensures SnakeCase([a, b, c]) == Lower(a) + "_" + Lower(b) + "_" + Lower(c)
  {
    assert [a, b, c][1..] == [b, c];
    TwoWords(b, c);
  }

  lemma LowerUser()
    ensures Lower("User") == "user"
  {
    LowerCapitalized("User");
    assert ToLower('U') == 'u';
  }

  lemma LowerCompany()
    ensures Lower("Company") == "company"
  {
    LowerCapitalized("Company");
    assert ToLower('C') == 'c';
  }

  lemma LowerPosition()
    ensures Lower("Position") == "position"
  {
    LowerCapitalized("Position");
    assert ToLower('P') == 'p';
  }

  lemma LowerQuery()
    ensures Lower("Query") == "query"
  {
    LowerCapitalized("Query");
    assert ToLower('Q') == 'q';
  }

  lemma LowerSet()
    ensures Lower("Set") == "set"
  {
    LowerCapitalized("Set");
    assert ToLower('S') == 's';
  }

  lemma LowerTest()
    ensures Lower("Test") == "test"
  {
    LowerCapitalized("Test");
    assert ToLower('T') == 't';
  }

  lemma LowerDepends()
    ensures Lower("Depends") == "depends"
  {
    LowerCapitalized("Depends");
    assert ToLower('D') == 'd';
  }

  lemma LowerViewset()
    ensures Lower("Viewset") == "viewset"
  {
    LowerCapitalized("Viewset");
    assert ToLower('V') == 'v';
  }

  // ---------------------------------------------------------------------
  // Route prefixes of the example view sets. Each is the general theorem
  // about capitalised words applied to the class name's words, then the
  // words spelt out.

  lemma UserViewSetWords()
    ensures DerivePrefix(Concat(["User"]) + "ViewSet") == SnakeCase(["User"])
  {
    OneWord("User");
    SuffixSpelling();
    PascalNameDerivesSnakeCase(["User"], "ViewSet");
  }

  lemma UserViewSetName()
    ensures Concat(["User"]) + "ViewSet" == "UserViewSet"
  {
    OneWord("User");
  }

  lemma UserViewSetSnake()
    ensures SnakeCase(["User"]) == "user"
  {
    OneWord("User");
    LowerUser();
  }

  /** `UserViewSet` routes under `/user`. */
  lemma UserViewSetPrefix()
    ensures DerivePrefix("UserViewSet") == "user"
  {
    UserViewSetWords();
    UserViewSetName();
    UserViewSetSnake();
  }

  lemma CompanyViewSetWords()
    ensures DerivePrefix(Concat(["Company"]) + "ViewSet") == SnakeCase(["Company"])
  {
    OneWord("Company");
    SuffixSpelling();
    PascalNameDerivesSnakeCase(["Company"], "ViewSet");
  }

  lemma CompanyViewSetName()
    ensures Concat(["Company"]) + "ViewSet" == "CompanyViewSet"
  {
    OneWord("Company");
  }

  lemma CompanyViewSetSnake()
    ensures SnakeCase(["Company"]) == "company"
  {
    OneWord("Company");
    LowerCompany();
  }

  /** `CompanyViewSet` routes under `/company`. */
  lemma CompanyViewSetPrefix()
    ensures DerivePrefix("CompanyViewSet") == "company"
  {
    CompanyViewSetWords();
    CompanyViewSetName();
    CompanyViewSetSnake();
  }

  lemma PositionViewSetWords()
    ensures DerivePrefix(Concat(["Position"]) + "ViewSet") == SnakeCase(["Position"])
  {
    OneWord("Position");
    SuffixSpelling();
    PascalNameDerivesSnakeCase(["Position"], "ViewSet");
  }

  lemma PositionViewSetName()
    ensures Concat(["Position"]) + "ViewSet" == "PositionViewSet"
  {
    OneWord("Position");
  }

  lemma PositionViewSetSnake()
    ensures SnakeCase(["Position"]) == "position"
  {
    OneWord("Position");
    LowerPosition();
  }

  /** `PositionViewSet` routes under `/position`. */
  lemma PositionViewSetPrefix()
    ensures DerivePrefix("PositionViewSet") == "position"
  {
    PositionViewSetWords();
    PositionViewSetName();
    PositionViewSetSnake();
  }

  lemma QuerySetTestViewSetWords()
    ensures DerivePrefix(Concat(["Query", "Set", "Test"]) + "ViewSet") == SnakeCase(["Query", "Set", "Test"])
  {
    ThreeWords("Query", "Set", "Test");
    SuffixSpelling();
    PascalNameDerivesSnakeCase(["Query", "Set", "Test"], "ViewSet");
  }

  lemma QuerySetTestViewSetName()
    ensures Concat(["Query", "Set", "Test"]) + "ViewSet" == "QuerySetTestViewSet"
  {
    ThreeWords("Query", "Set", "Test");
  }

  lemma QuerySetTestViewSetSnake()
    ensures SnakeCase(["Query", "Set", "Test"]) == "query_set_test"
  {
    ThreeWords("Query", "Set", "Test");
    LowerQuery();
    LowerSet();
    LowerTest();
  }

  /** `QuerySetTestViewSet` routes under `/query_set_test`. */
  lemma QuerySetTestViewSetPrefix()
    ensures DerivePrefix("QuerySetTestViewSet") == "query_set_test"
  {
    QuerySetTestViewSetWords();
    QuerySetTestViewSetName();
    QuerySetTestViewSetSnake();
  }

  lemma DependsTestViewSetWords()
    ensures DerivePrefix(Concat(["Depends", "Test"]) + "ViewSet") == SnakeCase(["Depends", "Test"])
  {
    TwoWords("Depends", "Test");
    SuffixSpelling();
    PascalNameDerivesSnakeCase(["Depends", "Test"], "ViewSet");
  }

  lemma DependsTestViewSetName()
    ensures Concat(["Depends", "Test"]) + "ViewSet" == "DependsTestViewSet"
  {
    TwoWords("Depends", "Test");
  }

  lemma DependsTestViewSetSnake()
    ensures SnakeCase(["Depends", "Test"]) == "depends_test"
  {
    TwoWords("Depends", "Test");
    LowerDepends();
    LowerTest();
  }

  /** `DependsTestViewSet` routes under `/depends_test`. */
  lemma DependsTestViewSetPrefix()
    ensures DerivePrefix("DependsTestViewSet") == "depends_test"
  {
    DependsTestViewSetWords();
    DependsTestViewSetName();
    DependsTestViewSetSnake();
  }

  // ---------------------------------------------------------------------
  // Deriving twice is not deriving once.

  lemma DoubledSuffixWords()
    ensures DerivePrefix(Concat(["Viewset"]) + "viewset") == SnakeCase(["Viewset"])
  {
    OneWord("Viewset");
    SuffixSpelling();
    PascalNameDerivesSnakeCase(["Viewset"], "viewset");
  }

  lemma DoubledSuffixName()
    ensures Concat(["Viewset"]) + "viewset" == "Viewsetviewset"
  {
    OneWord("Viewset");
  }

  lemma DoubledSuffixSnake()
    ensures SnakeCase(["Viewset"]) == "viewset"
  {
    OneWord("Viewset");
    LowerViewset();
  }

  lemma BareSuffixDerivesEmpty()
    ensures DerivePrefix("viewset") == ""
  {
    SuffixSpelling();
    assert "viewset"[7 - 7..] == "viewset";
    assert StripViewSetSuffix("viewset") == "";
  }

  /** Prefix derivation is not idempotent: a class named `Viewsetviewset`
      derives `viewset`, and deriving again from that gives the empty prefix. */
  lemma DerivePrefixIsNotIdempotent()
    ensures DerivePrefix("Viewsetviewset") == "viewset"
    ensures DerivePrefix(DerivePrefix("Viewsetviewset")) == ""
  {
    DoubledSuffixWords();
    DoubledSuffixName();
    DoubledSuffixSnake();
    BareSuffixDerivesEmpty();
  }
}
