/** The data context `query_ai` places in the prompt: the pre-computed analysis
    when there is one, otherwise a bounded digest of each table
    (`create_data_summary`). */
module Context {
  import opened Basics
  import opened Tables
  import opened Intent
  import opened Report

  /** `df.head(5)`: the digest never carries more rows than this. */
  const SampleSize: nat := 5

  const HeaderLabel := "Dados de Cabeçalho"
  const ItemsLabel := "Dados de Itens"

  /** A table digest: row count, column names and the first rows. The numeric
      statistics of `df.describe()` and the JSON rendering are not modelled. */
  datatype Summary =
    | Unavailable(name: string)
    | Digest(name: string, totalRows: nat, columns: seq<string>, sample: seq<seq<Cell>>)

  datatype PromptContext =
    | Precomputed(analysis: string)
    | Summaries(header: Summary, items: Summary)

  /** `create_data_summary(df, name)`; an absent table gets the "none available" summary. */
  function Summarize(t: Option<Table>, name: string): (s: Summary)
    ensures s.name == name
    ensures s.Unavailable? <==> t.None?
    ensures t.Some? ==> s.totalRows == |t.value.rows| && s.columns == t.value.columns
    ensures t.Some? ==> |s.sample| <= SampleSize && |s.sample| == Min(SampleSize, |t.value.rows|)
    ensures t.Some? ==> forall i :: 0 <= i < |s.sample| ==> s.sample[i] == t.value.rows[i]
  {
    match t
    case None => Unavailable(name)
    case Some(table) => Digest(name, |table.rows|, table.columns, table.rows[..Min(SampleSize, |table.rows|)])
  }

  /** `if formatted_result:` a non-empty pre-computed result replaces the summaries. */
  function SelectContext(precomputed: Option<string>, header: Option<Table>, items: Option<Table>): PromptContext
  {
    if Truthy(precomputed) then Precomputed(precomputed.value)
    else Summaries(Summarize(header, HeaderLabel), Summarize(items, ItemsLabel))
  }

  /** The context for one question. The top-suppliers question always gets the
      analysis, because the analysis text is never empty; any other question gets
      both digests, each holding its table's row count and at most five rows. */
  method BuildContext(question: string, header: Table, items: Table) returns (context: PromptContext)
    ensures context.Precomputed? <==> IsTopSuppliersQuestion(question)
    ensures context.Precomputed? ==> context.analysis == TopSuppliersAnalysis(header)
    ensures context.Summaries? ==>
              context.header == Summarize(Some(header), HeaderLabel) && context.items == Summarize(Some(items), ItemsLabel)
  {
    var precomputed: Option<string> := None;
    if IsTopSuppliersQuestion(question) {
      var analysis := AnalyseTopSuppliers(header);
      precomputed := Some(analysis);
    }
    context := SelectContext(precomputed, Some(header), Some(items));
  }
}
