/** The pre-computed "top 10 suppliers" analysis and the text it hands to the
    prompt (`formatted_result`). */
module Report {
  import opened Basics
  import opened Text
  import opened Tables
  import opened Columns
  import opened Ranking

  /** The one supported query ranks ten suppliers. */
  const TopN: nat := 10

  // The fixed texts are written in pieces only to keep each literal short for the verifier.
  const RankingHeader := "Os 10 fornecedores com mais Notas Fiscais" + " são:\n\n"
  const NoGroupsMessage := "Não foram encontrados dados de fornecedores " + "ou notas fiscais para esta análise."
  const ColumnsNotFound := "Não foi possível identificar as colunas " + "de fornecedor ou chave de acesso nos dados "
                           + "para calcular o top 10."

  /** `f"- {fornecedor}: {count} Notas Fiscais\n"` */
  function BulletLine(e: Entry): string
  {
    "- " + e.supplier + ": " + Decimal(e.count) + " Notas Fiscais\n"
  }

  /** The bullet lines of a ranking, in rank order. */
  function Bullets(ranked: seq<Entry>): string
  {
    if |ranked| == 0 then "" else Bullets(ranked[..|ranked| - 1]) + BulletLine(ranked[|ranked| - 1])
  }

  /** The header line, then one bullet per entry, or the no-data sentence. */
  function RankingText(ranked: seq<Entry>): string
  {
    RankingHeader + (if |ranked| == 0 then NoGroupsMessage else Bullets(ranked))
  }

  /** Builds `formatted_result` with `+=` over the ranked entries. */
  method FormatRanking(ranked: seq<Entry>) returns (text: string)
    ensures text == RankingText(ranked)
  {
    text := RankingHeader;
    if |ranked| != 0 {
      for i := 0 to |ranked|
        invariant text == RankingHeader + Bullets(ranked[..i])
      {
        assert ranked[..i + 1][..i] == ranked[..i];
        text := text + BulletLine(ranked[i]);
      }
      assert ranked[..|ranked|] == ranked;
    } else {
      text := text + NoGroupsMessage;
    }
  }

  /** Bullets of a concatenation are the concatenated bullets. */
  lemma {:induction false} BulletsConcat(a: seq<Entry>, b: seq<Entry>)
    ensures Bullets(a + b) == Bullets(a) + Bullets(b)
    decreases |b|
  {
    if |b| > 0 {
      assert (a + b)[..|a + b| - 1] == a + b[..|b| - 1];
      BulletsConcat(a, b[..|b| - 1]);
    } else {
      assert a + b == a;
    }
  }

  /** A supplier name without a line break gives exactly one line per ranked entry. */
  lemma {:induction false} OneLinePerEntry(ranked: seq<Entry>)
    requires forall i, k :: 0 <= i < |ranked| && 0 <= k < |ranked[i].supplier| ==> ranked[i].supplier[k] != '\n'
    ensures CountChar(Bullets(ranked), '\n') == |ranked|
    decreases |ranked|
  {
    if |ranked| > 0 {
      var init, last := ranked[..|ranked| - 1], ranked[|ranked| - 1];
      OneLinePerEntry(init);
      var digits := Decimal(last.count);
      CountCharAbsent(last.supplier, '\n');
      CountCharAbsent(digits, '\n');
      CountCharAbsent("- ", '\n');
      CountCharAbsent(": ", '\n');
      CountCharAbsent(" Notas Fiscais", '\n');
      assert " Notas Fiscais\n" == " Notas Fiscais" + "\n";
      CountCharConcat(" Notas Fiscais", "\n", '\n');
      CountCharConcat("- ", last.supplier, '\n');
      CountCharConcat("- " + last.supplier, ": ", '\n');
      CountCharConcat("- " + last.supplier + ": ", digits, '\n');
      CountCharConcat("- " + last.supplier + ": " + digits, " Notas Fiscais\n", '\n');
      CountCharConcat(Bullets(init), BulletLine(last), '\n');
    }
  }

  /** The analysis `query_ai` runs for the top-suppliers question: discover the two
      columns, rank the suppliers, format the ranking; or report the missing columns. */
  function TopSuppliersAnalysis(header: Table): string
  {
    var supplier, key := SupplierColumn(header.columns), AccessKeyColumn(header.columns);
    if supplier.Some? && key.Some? then
      RankingText(TopSuppliers(KeyedRows(header, supplier.value, key.value), TopN))
    else
      ColumnsNotFound
  }

  method AnalyseTopSuppliers(header: Table) returns (text: string)
    ensures text == TopSuppliersAnalysis(header)
    ensures text != ""
  {
    var supplierColumn := FindSupplierColumn(header.columns);
    var keyColumn := FindAccessKeyColumn(header.columns);
    if Truthy(supplierColumn) && Truthy(keyColumn) {
      var ranked := TopSuppliers(KeyedRows(header, supplierColumn.value, keyColumn.value), TopN);
      text := FormatRanking(ranked);
    } else {
      text := ColumnsNotFound;
    }
  }

  /** The missing-columns message appears exactly when a column was not found; a
      ranking text starts with its header line, so it can never be mistaken for it. */
  lemma MissingColumnsIff(header: Table)
    ensures TopSuppliersAnalysis(header) == ColumnsNotFound
            <==> SupplierColumn(header.columns).None? || AccessKeyColumn(header.columns).None?
  {
    var supplier, key := SupplierColumn(header.columns), AccessKeyColumn(header.columns);
    if supplier.Some? && key.Some? {
      RankingTextIsNotColumnsNotFound(TopSuppliers(KeyedRows(header, supplier.value, key.value), TopN));
    }
  }

  lemma RankingTextIsNotColumnsNotFound(ranked: seq<Entry>)
    ensures RankingText(ranked) != ColumnsNotFound
  {
    assert RankingText(ranked)[0] == 'O' && ColumnsNotFound[0] == 'N';
  }

  /** When both columns are found the text is the header line followed by the
      ranking's bullets, or the no-data sentence when no row names a supplier. */
  lemma RankingTextCases(header: Table)
    ensures var supplier, key := SupplierColumn(header.columns), AccessKeyColumn(header.columns);
            supplier.Some? && key.Some? ==>
              var rows := KeyedRows(header, supplier.value, key.value);
              var ranked := TopSuppliers(rows, TopN);
              && (GroupNames(rows) == {} ==> TopSuppliersAnalysis(header) == RankingHeader + NoGroupsMessage)
              && (GroupNames(rows) != {} ==>
                    TopSuppliersAnalysis(header) == RankingHeader + Bullets(ranked) && 0 < |ranked| <= TopN)
  {
    var supplier, key := SupplierColumn(header.columns), AccessKeyColumn(header.columns);
    if supplier.Some? && key.Some? {
      var rows := KeyedRows(header, supplier.value, key.value);
      EmptyRankingIffNoGroups(rows, TopN);
    }
  }
}
