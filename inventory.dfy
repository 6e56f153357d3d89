/** The loaded material table: the filter the sidebar applies
    (`filter_materials`) and the identifier lookup the scanner uses. */
module Inventory {
  import opened Wrappers
  import opened Text
  import opened Sequences

  /** One row of the table: `id_codigo`, `etapa_programa`, `trait` (as traitTag, since `trait` is a Dafny keyword), `avanco`. */
  datatype Material = Material(id: string, stage: string, traitTag: string, status: string)

  /** The status-filter choice that means "no filter". */
  const AllStatuses: string := "Todos"

  /** `if avanco_filter and avanco_filter != "Todos"`: an absent or empty
      choice and "Todos" leave the table unfiltered. */
  predicate StatusFilterOn(statusFilter: Option<string>) {
    statusFilter.Some? && statusFilter.value != "" && statusFilter.value != AllStatuses
  }

  /** `if id_search`: an absent or empty term applies no search. */
  predicate SearchOn(search: Option<string>) {
    search.Some? && search.value != ""
  }

  /** The term occurs, ignoring case, in the identifier or in the stage. */
  predicate MatchesSearch(m: Material, term: string) {
    ContainsIgnoreCase(m.id, term) || ContainsIgnoreCase(m.stage, term)
  }

  /** Reference definition of what the filter keeps: both criteria, each only
      when it is switched on. */
  predicate Admitted(m: Material, statusFilter: Option<string>, search: Option<string>) {
    && (StatusFilterOn(statusFilter) ==> m.status == statusFilter.value)
    && (SearchOn(search) ==> MatchesSearch(m, search.value))
  }

  /** `filter_materials`: the status step, then the search step on its result. */
  function FilterMaterials(rows: seq<Material>, statusFilter: Option<string>, search: Option<string>): (r: seq<Material>)
  {
    var byStatus := if StatusFilterOn(statusFilter) then Where(rows, (m: Material) => m.status == statusFilter.value) else rows;
    if SearchOn(search) then Where(byStatus, (m: Material) => MatchesSearch(m, search.value)) else byStatus
  }

  /** The two filter steps compose into one selection by `Admitted`. */
  lemma FilterMaterialsIsSelection(rows: seq<Material>, statusFilter: Option<string>, search: Option<string>)
    ensures FilterMaterials(rows, statusFilter, search) == Where(rows, (m: Material) => Admitted(m, statusFilter, search))
  {
    var admitted := (m: Material) => Admitted(m, statusFilter, search);
    if StatusFilterOn(statusFilter) && SearchOn(search) {
      WhereWhere(rows, (m: Material) => m.status == statusFilter.value, (m: Material) => MatchesSearch(m, search.value), admitted);
    } else if StatusFilterOn(statusFilter) {
      WhereCongruent(rows, (m: Material) => m.status == statusFilter.value, admitted);
    } else if SearchOn(search) {
      WhereCongruent(rows, (m: Material) => MatchesSearch(m, search.value), admitted);
    } else {
      WhereAll(rows, admitted);
    }
  }

  /** The filtered table is an order-preserving subsequence of the table; a row
      is in it exactly when it passes both active criteria; with no criterion it
      is the whole table. */
  lemma FilterMaterialsSpec(rows: seq<Material>, statusFilter: Option<string>, search: Option<string>)
    ensures IsSubsequence(FilterMaterials(rows, statusFilter, search), rows)
    ensures forall m :: m in FilterMaterials(rows, statusFilter, search) <==>
                          m in rows && Admitted(m, statusFilter, search)
    ensures StatusFilterOn(statusFilter) ==>
              forall m :: m in FilterMaterials(rows, statusFilter, search) ==> m.status == statusFilter.value
    ensures SearchOn(search) ==>
              forall m :: m in FilterMaterials(rows, statusFilter, search) ==> MatchesSearch(m, search.value)
    ensures !StatusFilterOn(statusFilter) && !SearchOn(search) ==> FilterMaterials(rows, statusFilter, search) == rows
  {
    FilterMaterialsIsSelection(rows, statusFilter, search);
    WhereSpec(rows, (m: Material) => Admitted(m, statusFilter, search));
  }

  /** The rows whose identifier is exactly `id` (`df['id_codigo'] == id`). */
  function Matches(rows: seq<Material>, id: string): (r: seq<Material>)
  {
    Where(rows, (m: Material) => m.id == id)
  }

  /** `material_matches.iloc[0]` when there is a match: exact, case-sensitive
      comparison, first row in table order. */
  function Lookup(rows: seq<Material>, id: string): (r: Option<Material>)
  {
    var matches := Matches(rows, id);
    if matches == [] then None else Some(matches[0])
  }

  /** `Lookup` finds nothing exactly when no row carries `id`, and otherwise
      returns the first row that does. */
  lemma LookupFirst(rows: seq<Material>, id: string)
    ensures Lookup(rows, id).None? <==> forall i :: 0 <= i < |rows| ==> rows[i].id != id
    ensures Lookup(rows, id).Some? ==> Lookup(rows, id).value in rows && Lookup(rows, id).value.id == id
    ensures Lookup(rows, id).Some? ==>
              exists i :: 0 <= i < |rows| && rows[i] == Lookup(rows, id).value && rows[i].id == id
                          && forall j :: 0 <= j < i ==> rows[j].id != id
  {
    WhereFirst(rows, (m: Material) => m.id == id);
  }

  /** The row `Lookup` picks is determined by the first index that carries
      `id`: a restatement convenient for callers that know that index. */
  lemma LookupAt(rows: seq<Material>, id: string, i: int)
    requires 0 <= i < |rows| && rows[i].id == id
    requires forall j :: 0 <= j < i ==> rows[j].id != id
    ensures Lookup(rows, id) == Some(rows[i])
  {
    LookupFirst(rows, id);
    var k :| 0 <= k < |rows| && rows[k] == Lookup(rows, id).value && rows[k].id == id
             && forall j :: 0 <= j < k ==> rows[j].id != id;
    assert k == i;
  }
}
