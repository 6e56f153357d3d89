/** Load-time checks on an uploaded sheet: the required-column check and the
    `trait` default of `load_excel_file`, and the advisory identifier checks of
    `validate_excel_data`. Reading the file itself is not modelled: a sheet is
    given as its set of column names and its rows. */
module Loading {
  import opened Wrappers
  import opened Sequences

  /** One sheet row. `id` is `None` for an empty (null) cell. `traitTag` is the
      `trait` cell and is meaningless when the sheet has no `trait` column. */
  datatype RawRow = RawRow(id: Option<string>, stage: string, status: string, traitTag: string)

  /** An advisory finding: repeated identifiers (listed as pandas'
      `duplicated()` lists them), or at least one empty identifier. */
  datatype Issue = DuplicateIds(ids: seq<Option<string>>) | EmptyIds

  datatype LoadResult =
    | MissingColumns(missing: seq<string>)
    | Loaded(rows: seq<RawRow>, issues: seq<Issue>)

  const RequiredColumns: seq<string> := ["etapa_programa", "id_codigo", "avanco"]
  const TraitColumn: string := "trait"
  const NoTrait: string := "N/A"

  /** pandas' `duplicated()` with its default `keep='first'`: every occurrence
      of a value after its first one, in table order (empty cells compare equal
      to each other). */
  function Duplicated(ids: seq<Option<string>>): (r: seq<Option<string>>)
    ensures |r| <= |ids|
    decreases |ids|
  {
    if ids == [] then []
    else
      var init := ids[..|ids| - 1];
      Duplicated(init) + (if ids[|ids| - 1] in init then [ids[|ids| - 1]] else [])
  }

  /** `x` occurs at two different positions of `ids`. */
  predicate RepeatedIn(ids: seq<Option<string>>, x: Option<string>) {
    exists i, j :: 0 <= i < j < |ids| && ids[i] == x && ids[j] == x
  }

  predicate Distinct(ids: seq<Option<string>>) {
    forall i, j :: 0 <= i < j < |ids| ==> ids[i] != ids[j]
  }

  /** Extending the column by one cell makes that cell's value repeated
      exactly when it was already present. */
  lemma RepeatedInSnoc(init: seq<Option<string>>, last: Option<string>, x: Option<string>)
    ensures RepeatedIn(init + [last], x) <==> RepeatedIn(init, x) || (x == last && x in init)
  {
    var ids := init + [last];
    if RepeatedIn(ids, x) {
      var i, j :| 0 <= i < j < |ids| && ids[i] == x && ids[j] == x;
      if j < |init| {
        assert init[i] == x && init[j] == x;
      } else {
        assert init[i] == x;
      }
    }
    if RepeatedIn(init, x) {
      var i, j :| 0 <= i < j < |init| && init[i] == x && init[j] == x;
      assert ids[i] == x && ids[j] == x;
    }
    if x == last && x in init {
      var i :| 0 <= i < |init| && init[i] == x;
      assert ids[i] == x && ids[|init|] == x;
    }
  }

  /** A value is listed as duplicated exactly when it occurs twice or more, so
      the list is empty exactly when the identifiers are pairwise distinct. */
  lemma {:induction false} DuplicatedSpec(ids: seq<Option<string>>)
    ensures forall x :: x in Duplicated(ids) <==> RepeatedIn(ids, x)
    ensures Duplicated(ids) == [] <==> Distinct(ids)
    decreases |ids|
  {
    if ids != [] {
      var n := |ids| - 1;
      var init := ids[..n];
      assert ids == init + [ids[n]];
      DuplicatedSpec(init);
      forall x ensures x in Duplicated(ids) <==> RepeatedIn(ids, x) {
        RepeatedInSnoc(init, ids[n], x);
      }
    }
    if !Distinct(ids) {
      var i, j :| 0 <= i < j < |ids| && ids[i] == ids[j];
      assert RepeatedIn(ids, ids[i]);
    }
    if Duplicated(ids) != [] {
      assert RepeatedIn(ids, Duplicated(ids)[0]);
    }
  }

  /** `validate_excel_data`: the duplicate finding first, then the empty-id
      finding. */
  function Validate(ids: seq<Option<string>>): (issues: seq<Issue>)
    ensures |issues| <= 2
  {
    var dups := Duplicated(ids);
    (if dups != [] then [DuplicateIds(dups)] else []) + (if None in ids then [EmptyIds] else [])
  }

  /** No finding exactly when every identifier is present and they are pairwise
      distinct; the duplicate finding is reported exactly when some identifier
      repeats, the empty-id finding exactly when some cell is empty, and the
      duplicate finding comes first when both are reported. */
  lemma ValidateSpec(ids: seq<Option<string>>)
    ensures Validate(ids) == [] <==> None !in ids && Distinct(ids)
    ensures (exists k :: 0 <= k < |Validate(ids)| && Validate(ids)[k].DuplicateIds?) <==> !Distinct(ids)
    ensures EmptyIds in Validate(ids) <==> None in ids
    ensures |Validate(ids)| == 2 ==> Validate(ids)[0].DuplicateIds? && Validate(ids)[1] == EmptyIds
  {
    DuplicatedSpec(ids);
    var issues := Validate(ids);
    if Distinct(ids) {
      assert issues == if None in ids then [EmptyIds] else [];
    } else {
      assert issues[0] == DuplicateIds(Duplicated(ids));
    }
  }

  /** The required columns absent from the sheet, in the order the source
      lists them. */
  function MissingOf(columns: set<string>): (r: seq<string>)
  {
    Where(RequiredColumns, c => c !in columns)
  }

  /** The identifier column, one cell per row. */
  function IdsOf(rows: seq<RawRow>): (ids: seq<Option<string>>)
  {
    seq(|rows|, i requires 0 <= i < |rows| => rows[i].id)
  }

  /** The sheet's rows with `trait` set to "N/A" when it has no such column. */
  function WithTraitDefault(columns: set<string>, rows: seq<RawRow>): (r: seq<RawRow>)
  {
    if TraitColumn in columns then rows
    else seq(|rows|, i requires 0 <= i < |rows| => rows[i].(traitTag := NoTrait))
  }

  /** What `load_excel_file` does once the sheet has been read. */
  function Load(columns: set<string>, rows: seq<RawRow>): (r: LoadResult)
  {
    var missing := MissingOf(columns);
    if missing != [] then MissingColumns(missing)
    else
      var table := WithTraitDefault(columns, rows);
      Loaded(table, Validate(IdsOf(table)))
  }

  /** The load fails exactly when a required column is missing, and then
      names precisely the missing ones. Otherwise it keeps every row, in order,
      changing nothing but a defaulted `trait`, and it succeeds whatever the
      findings are (they are reported alongside, never block). */
  lemma LoadSpec(columns: set<string>, rows: seq<RawRow>)
    ensures Load(columns, rows).MissingColumns? <==> exists c :: c in RequiredColumns && c !in columns
    ensures Load(columns, rows).MissingColumns? ==>
              forall c :: c in Load(columns, rows).missing <==> c in RequiredColumns && c !in columns
    ensures Load(columns, rows).Loaded? ==>
              && |Load(columns, rows).rows| == |rows|
              && (forall i :: 0 <= i < |rows| ==>
                    Load(columns, rows).rows[i] ==
                      if TraitColumn in columns then rows[i] else rows[i].(traitTag := NoTrait))
              && Load(columns, rows).issues == Validate(IdsOf(rows))
  {
    var missing := MissingOf(columns);
    WhereSpec(RequiredColumns, c => c !in columns);
    if exists c :: c in RequiredColumns && c !in columns {
      var c :| c in RequiredColumns && c !in columns;
      assert c in missing;
    }
    var table := WithTraitDefault(columns, rows);
    assert IdsOf(table) == IdsOf(rows);
  }
}
