/** The search filter built from the advanced options (streamlit_app.py, lines 160-170). */
module FilterTree {
  import opened Common
  import opened OptionLines

  /** The JSON filter shapes `{"@and": [...]}`, `{"@or": [...]}`, `{"@contains": {c: v}}`, `{"@eq": {c: v}}`. */
  datatype Filter =
    | And(all: seq<Filter>)
    | Or(any: seq<Filter>)
    | Contains(column: string, value: string)
    | Eq(column: string, value: string)

  /** A column value of an indexed app: a text, or a list of texts. */
  datatype Cell = Text(text: string) | Items(items: seq<string>)

  type Row = map<string, Cell>

  /**
   * The meaning of a filter on one row: `@and` needs every part, `@or` some part,
   * `@contains` a list column holding the value, `@eq` a text column equal to it.
   */
  predicate Holds(f: Filter, row: Row)
  {
    match f
    case And(fs) => forall i :: 0 <= i < |fs| ==> Holds(fs[i], row)
    case Or(fs) => exists i :: 0 <= i < |fs| && Holds(fs[i], row)
    case Contains(c, v) => HasItem(row, c, v)
    case Eq(c, v) => c in row && row[c] == Text(v)
  }

  predicate HasItem(row: Row, column: string, value: string)
  {
    column in row && row[column].Items? && value in row[column].items
  }

  /**
   * An `@or` holding one `@contains` test on `column` per chosen entry name, in selection
   * order. It matches a row exactly when the column lists one of the chosen names.
   */
  function AnyContains(column: string, choices: seq<Choice>): (r: Filter)
    ensures r.Or? && |r.any| == |choices|
    ensures forall i :: 0 <= i < |choices| ==> r.any[i] == Contains(column, choices[i].name)
    ensures forall row :: Holds(r, row) <==> exists i :: 0 <= i < |choices| && HasItem(row, column, choices[i].name)
  {
    var r := Or(seq(|choices|, i requires 0 <= i < |choices| => Contains(column, choices[i].name)));
    OrOfContains(r, column, choices);
    r
  }

  /** An `@or` of one `@contains` per chosen name matches when the column lists one of them. */
  lemma OrOfContains(f: Filter, column: string, choices: seq<Choice>)
    requires f.Or? && |f.any| == |choices|
    requires forall i :: 0 <= i < |choices| ==> f.any[i] == Contains(column, choices[i].name)
    ensures forall row :: Holds(f, row) <==> exists i :: 0 <= i < |choices| && HasItem(row, column, choices[i].name)
  {
    forall row | exists i :: 0 <= i < |choices| && HasItem(row, column, choices[i].name)
      ensures Holds(f, row)
    {
      var i :| 0 <= i < |choices| && HasItem(row, column, choices[i].name);
      assert Holds(f.any[i], row);
    }
  }

  /** Python truthiness of the owner text box: present and not empty. */
  predicate Given(owner: Option<string>)
  {
    owner.Some? && owner.value != ""
  }

  /**
   * What the user asked for: some chosen dependency (when any is chosen), some chosen
   * component (when any is chosen), and the given owner (when one is given).
   */
  predicate Selected(dependencies: seq<Choice>, components: seq<Choice>, owner: Option<string>, row: Row)
  {
    && (dependencies != [] ==> exists i :: 0 <= i < |dependencies| && HasItem(row, "DEPENDENCIES", dependencies[i].name))
    && (components != [] ==> exists i :: 0 <= i < |components| && HasItem(row, "COMPONENTS", components[i].name))
    && (Given(owner) ==> "OWNER" in row && row["OWNER"] == Text(owner.value))
  }

  /** No filter (`None`) lets every row through. */
  predicate Admits(filters: Option<Filter>, row: Row)
  {
    filters.None? || Holds(filters.value, row)
  }

  /**
   * Lines 160-170: collect one conjunct per selection kind that is present, in the order
   * dependencies, components, owner, and wrap them in `@and`; with no conjunct there is no
   * filter at all. The filter admits a row exactly when the row is what the user selected.
   */
  method BuildFilters(dependencies: seq<Choice>, components: seq<Choice>, owner: Option<string>)
    returns (filters: Option<Filter>)
    ensures filters.None? <==> dependencies == [] && components == [] && !Given(owner)
    ensures filters.Some? ==> filters.value.And?
    ensures filters.Some? ==> (filters.value.all
      == (if dependencies != [] then [AnyContains("DEPENDENCIES", dependencies)] else [])
       + (if components != [] then [AnyContains("COMPONENTS", components)] else [])
       + (if Given(owner) then [Eq("OWNER", owner.value)] else []))
    ensures forall row :: Admits(filters, row) <==> Selected(dependencies, components, owner, row)
  {
    var andFilters: seq<Filter> := [];
    if dependencies != [] {
      andFilters := andFilters + [AnyContains("DEPENDENCIES", dependencies)];
    }
    if components != [] {
      andFilters := andFilters + [AnyContains("COMPONENTS", components)];
    }
    if Given(owner) {
      andFilters := andFilters + [Eq("OWNER", owner.value)];
    }
    filters := None;
    if andFilters != [] {
      filters := Some(And(andFilters));
    }
    forall row
      ensures Admits(filters, row) <==> Selected(dependencies, components, owner, row)
    {
      PartsMeaning(dependencies, components, owner, andFilters, row);
    }
  }

  /** The conjuncts collected on lines 163-168 hold together exactly when the row is selected. */
  lemma PartsMeaning(dependencies: seq<Choice>, components: seq<Choice>, owner: Option<string>,
                     parts: seq<Filter>, row: Row)
    requires parts
      == (if dependencies != [] then [AnyContains("DEPENDENCIES", dependencies)] else [])
       + (if components != [] then [AnyContains("COMPONENTS", components)] else [])
       + (if Given(owner) then [Eq("OWNER", owner.value)] else [])
    ensures Holds(And(parts), row) <==> Selected(dependencies, components, owner, row)
  {
    var d := if dependencies != [] then [AnyContains("DEPENDENCIES", dependencies)] else [];
    var c := if components != [] then [AnyContains("COMPONENTS", components)] else [];
    var o := if Given(owner) then [Eq("OWNER", owner.value)] else [];
    AndOfParts(d, c, o, row);
    assert Holds(And(d), row) <==> (dependencies != [] ==> Holds(AnyContains("DEPENDENCIES", dependencies), row)) by {
      if dependencies != [] { assert d[0] == AnyContains("DEPENDENCIES", dependencies); }
    }
    assert Holds(And(c), row) <==> (components != [] ==> Holds(AnyContains("COMPONENTS", components), row)) by {
      if components != [] { assert c[0] == AnyContains("COMPONENTS", components); }
    }
    assert Holds(And(o), row) <==> (Given(owner) ==> Holds(Eq("OWNER", owner.value), row)) by {
      if Given(owner) { assert o[0] == Eq("OWNER", owner.value); }
    }
  }

  /** A conjunction of three lists of parts holds exactly when each list holds throughout. */
  lemma AndOfParts(d: seq<Filter>, c: seq<Filter>, o: seq<Filter>, row: Row)
    ensures Holds(And(d + c + o), row)
        <==> Holds(And(d), row) && Holds(And(c), row) && Holds(And(o), row)
  {
    var all := d + c + o;
    if Holds(And(d), row) && Holds(And(c), row) && Holds(And(o), row) {
      forall i | 0 <= i < |all|
        ensures Holds(all[i], row)
      {
        if i < |d| {
          assert all[i] == d[i];
        } else if i < |d| + |c| {
          assert all[i] == c[i - |d|];
        } else {
          assert all[i] == o[i - |d| - |c|];
        }
      }
    }
    if Holds(And(all), row) {
      forall i | 0 <= i < |d| ensures Holds(d[i], row) { assert all[i] == d[i]; }
      forall i | 0 <= i < |c| ensures Holds(c[i], row) { assert all[|d| + i] == c[i]; }
      forall i | 0 <= i < |o| ensures Holds(o[i], row) { assert all[|d| + |c| + i] == o[i]; }
    }
  }
}
