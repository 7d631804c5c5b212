/** The test on the lower-cased question that selects the pre-computed
    "top 10 suppliers" analysis. */
module Intent {
  import opened Text

  const TopSuppliersPhrase := "10 nomes de fornecedores com mais notas fiscais"
  const TopSuppliersShortPhrase := "top 10 fornecedores"

  predicate IsTopSuppliersQuestion(question: string)
  {
    var lowered := Lower(question);
    Contains(lowered, TopSuppliersPhrase) || Contains(lowered, TopSuppliersShortPhrase)
  }

  /** The test only sees the question's lower-cased form. */
  lemma TriggerIgnoresCase(question: string)
    ensures IsTopSuppliersQuestion(Lower(question)) == IsTopSuppliersQuestion(question)
  {
    LowerIdempotent(question);
  }

  /** The path is taken exactly when one of the two phrases is written somewhere in
      the lower-cased question. */
  lemma TriggerIffPhraseOccurs(question: string)
    ensures IsTopSuppliersQuestion(question)
            <==> OccursIn(TopSuppliersPhrase, Lower(question)) || OccursIn(TopSuppliersShortPhrase, Lower(question))
  {
    ContainsIffOccurs(Lower(question), TopSuppliersPhrase);
    ContainsIffOccurs(Lower(question), TopSuppliersShortPhrase);
  }

  /** A question that contains either phrase in any capitalisation takes the path. */
  lemma TriggeredInAnyCase(before: string, phrase: string, after: string)
    requires Lower(phrase) == TopSuppliersPhrase || Lower(phrase) == TopSuppliersShortPhrase
    ensures IsTopSuppliersQuestion(before + phrase + after)
  {
    LowerConcat(before + phrase, after);
    LowerConcat(before, phrase);
    ContainsInfix(Lower(before), Lower(phrase), Lower(after));
  }
}
