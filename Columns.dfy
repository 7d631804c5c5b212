/** Heuristic discovery of the supplier column and the access-key column of the
    invoice header table (`find_supplier_column`, `find_chave_acesso_column`). */
module Columns {
  import opened Basics
  import opened Text

  /** Name fragments that mark a supplier column, in the order they are tried. */
  const SupplierKeywords: seq<string> := ["fornecedor", "emitente", "nome fornecedor", "razao social"]

  /** Fragments that disqualify a supplier candidate ("chave do fornecedor", a CNPJ or CPF column). */
  const SupplierExclusions: seq<string> := ["chave", "cnpj", "cpf"]

  /** Name fragments that mark the invoice access-key column. */
  const AccessKeyKeywords: seq<string> := ["chave de acesso", "chaveacesso", "chave_acesso", "nfkey"]

  /** Some word of the list occurs in s. */
  predicate MentionsAny(s: string, words: seq<string>)
  {
    exists k :: 0 <= k < |words| && Contains(s, words[k])
  }

  /** The lower-cased name mentions a supplier keyword and no exclusion word. */
  predicate IsSupplierColumn(col: string)
  {
    MentionsAny(Lower(col), SupplierKeywords) && !MentionsAny(Lower(col), SupplierExclusions)
  }

  /** The lower-cased name mentions an access-key keyword. */
  predicate IsAccessKeyColumn(col: string)
  {
    MentionsAny(Lower(col), AccessKeyKeywords)
  }

  /** The first column, in column order, that satisfies p. */
  function FirstWhere(columns: seq<string>, p: string -> bool): (r: Option<string>)
    ensures r.None? <==> forall k :: 0 <= k < |columns| ==> !p(columns[k])
    ensures r.Some? ==> exists k :: 0 <= k < |columns| && columns[k] == r.value && p(columns[k])
                                     && forall j :: 0 <= j < k ==> !p(columns[j])
  {
    if |columns| == 0 then None
    else if p(columns[0]) then Some(columns[0])
    else
      var r := FirstWhere(columns[1..], p);
      assert r.Some? ==> exists k :: 1 <= k < |columns| && columns[k] == r.value && p(columns[k])
                                      && forall j :: 1 <= j < k ==> !p(columns[j]);
      r
  }

  /** When column i is the first to satisfy p, FirstWhere returns it. */
  lemma FirstWhereAt(columns: seq<string>, p: string -> bool, i: nat)
    requires i < |columns| && p(columns[i])
    requires forall k :: 0 <= k < i ==> !p(columns[k])
    ensures FirstWhere(columns, p) == Some(columns[i])
  {
    var r := FirstWhere(columns, p);
    var k :| 0 <= k < |columns| && columns[k] == r.value && p(columns[k])
              && forall j :: 0 <= j < k ==> !p(columns[j]);
    assert k == i;
  }

  /** The column `find_supplier_column` returns. */
  function SupplierColumn(columns: seq<string>): Option<string>
  {
    FirstWhere(columns, IsSupplierColumn)
  }

  /** The column `find_chave_acesso_column` returns. */
  function AccessKeyColumn(columns: seq<string>): Option<string>
  {
    FirstWhere(columns, IsAccessKeyColumn)
  }

  /** A supplier-keyword match in a column name that carries an exclusion word
      never qualifies, so the returned column never mentions one. */
  method FindSupplierColumn(columns: seq<string>) returns (found: Option<string>)
    ensures found == SupplierColumn(columns)
    ensures found.None? <==> forall k :: 0 <= k < |columns| ==> !IsSupplierColumn(columns[k])
    ensures found.Some? ==> !Contains(Lower(found.value), "chave") && !Contains(Lower(found.value), "cnpj")
                            && !Contains(Lower(found.value), "cpf")
    ensures found.Some? ==> Truthy(found)
  {
    for i := 0 to |columns|
      invariant forall k :: 0 <= k < i ==> !IsSupplierColumn(columns[k])
    {
      var col := columns[i];
      var lowered := Lower(col);
      for j := 0 to |SupplierKeywords|
        invariant forall m :: 0 <= m < j ==> !Contains(lowered, SupplierKeywords[m]) || MentionsAny(lowered, SupplierExclusions)
      {
        if Contains(lowered, SupplierKeywords[j]) {
          if !Contains(lowered, "chave") && !Contains(lowered, "cnpj") && !Contains(lowered, "cpf") {
            assert !MentionsAny(lowered, SupplierExclusions);
            FirstWhereAt(columns, IsSupplierColumn, i);
            ContainsNeedsRoom(lowered, SupplierKeywords[j]);
            return Some(col);
          }
          assert MentionsAny(lowered, SupplierExclusions) by {
            if Contains(lowered, "chave") { assert Contains(lowered, SupplierExclusions[0]); }
            else if Contains(lowered, "cnpj") { assert Contains(lowered, SupplierExclusions[1]); }
            else { assert Contains(lowered, SupplierExclusions[2]); }
          }
        }
      }
    }
    return None;
  }

  /** The first column whose lower-cased name mentions an access-key keyword. */
  method FindAccessKeyColumn(columns: seq<string>) returns (found: Option<string>)
    ensures found == AccessKeyColumn(columns)
    ensures found.None? <==> forall k :: 0 <= k < |columns| ==> !IsAccessKeyColumn(columns[k])
    ensures found.Some? ==> Truthy(found)
  {
    for i := 0 to |columns|
      invariant forall k :: 0 <= k < i ==> !IsAccessKeyColumn(columns[k])
    {
      var col := columns[i];
      var lowered := Lower(col);
      for j := 0 to |AccessKeyKeywords|
        invariant forall m :: 0 <= m < j ==> !Contains(lowered, AccessKeyKeywords[m])
      {
        if Contains(lowered, AccessKeyKeywords[j]) {
          FirstWhereAt(columns, IsAccessKeyColumn, i);
          ContainsNeedsRoom(lowered, AccessKeyKeywords[j]);
          return Some(col);
        }
      }
    }
    return None;
  }
}
