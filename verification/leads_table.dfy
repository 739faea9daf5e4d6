/** The editable lead grid of src/components/LeadsTable.tsx: the component's
    state (`data`, `originalData`, `editedRows`, `searchQuery`, and the draft
    value each TableCell holds), and the event handlers that replace it. */
module LeadsTable {
  import opened LeadRecord

  /** `defaultData`: the rows the grid starts from and the only rows a search filters. */
  function DefaultData(): (rows: seq<Lead>)
    ensures |rows| == 8
  {
    [ Lead("Jorge Ruiz", "02/02/2024, 2:45 PM", "Pending", "Mexico"),
      Lead("Bahar Zamir", "02/02/2024, 2:45 PM", "Pending", "Mexico"),
      Lead("Mary Lopez", "02/02/2024, 2:45 PM", "Pending", "Brazil"),
      Lead("Li Zijin", "02/02/2024, 2:45 PM", "Pending", "South Korea"),
      Lead("Mark Antonov", "02/02/2024, 2:45 PM", "Pending", "Russia"),
      Lead("Jane Ma", "02/02/2024, 2:45 PM", "Pending", "Mexico"),
      Lead("Anand Jain", "02/02/2024, 2:45 PM", "Reached Out", "Mexico"),
      Lead("Anna Voronova", "02/02/2024, 2:45 PM", "Pending", "France") ]
  }

  // ---------------------------------------------------------------------------
  // Case-insensitive substring search on `name`

  /** ASCII lower-casing of one character. */
  function LowerChar(ch: char): (r: char)
    ensures !('A' <= r <= 'Z')
    ensures 'A' <= ch <= 'Z' ==> r as int == ch as int + 32
    ensures !('A' <= ch <= 'Z') ==> r == ch
  {
    if 'A' <= ch <= 'Z' then (ch as int + 32) as char else ch
  }

  /** `toLowerCase()`, restricted to ASCII letters. */
  function Lower(s: string): (r: string)
    ensures |r| == |s|
    ensures forall i :: 0 <= i < |s| ==> r[i] == LowerChar(s[i])
    ensures forall i :: 0 <= i < |r| ==> !('A' <= r[i] <= 'Z')
  {
    seq(|s|, i requires 0 <= i < |s| => LowerChar(s[i]))
  }

  /** `p` occurs in `s` starting at position `i`. */
  ghost predicate OccursAt(s: string, p: string, i: int)
  {
    0 <= i && i + |p| <= |s| && s[i..i + |p|] == p
  }

  /** `s.includes(p)`, scanning the start positions from left to right. */
  function Includes(s: string, p: string): bool
    decreases |s|
  {
    if |p| > |s| then false
    else if s[..|p|] == p then true
    else Includes(s[1..], p)
  }

  /** The scan finds `p` exactly when `p` occurs somewhere in `s`. */
  lemma {:induction false} IncludesIff(s: string, p: string)
    ensures Includes(s, p) <==> exists i :: OccursAt(s, p, i)
    decreases |s|
  {
    if |p| > |s| {
      forall i ensures !OccursAt(s, p, i) { }
    } else if s[..|p|] == p {
      assert OccursAt(s, p, 0);
    } else {
      IncludesIff(s[1..], p);
      forall i | OccursAt(s, p, i) ensures OccursAt(s[1..], p, i - 1) {
        assert i != 0;
        assert s[1..][i - 1..i - 1 + |p|] == s[i..i + |p|];
      }
      forall j | OccursAt(s[1..], p, j) ensures OccursAt(s, p, j + 1) {
        assert s[1..][j..j + |p|] == s[j + 1..j + 1 + |p|];
      }
    }
  }

  /** The search predicate: lower-cased `name` includes the lower-cased query. */
  predicate Matches(lead: Lead, query: string)
  {
    Includes(Lower(lead.name), Lower(query))
  }

  /** A row matches exactly when the lower-cased query occurs somewhere in the
      lower-cased name; in particular the empty query matches every row. */
  lemma MatchesIff(lead: Lead, query: string)
    ensures Matches(lead, query) <==> exists i :: OccursAt(Lower(lead.name), Lower(query), i)
    ensures Matches(lead, query) ==> |query| <= |lead.name|
    ensures query == "" ==> Matches(lead, query)
  {
    IncludesIff(Lower(lead.name), Lower(query));
    if query == "" {
      assert OccursAt(Lower(lead.name), Lower(query), 0);
    }
  }

  /** `rows.filter(row => Matches(row, query))`. */
  function Filter(rows: seq<Lead>, query: string): (r: seq<Lead>)
    ensures |r| <= |rows|
    ensures forall x :: x in r ==> x in rows && Matches(x, query)
    ensures forall x :: x in rows && Matches(x, query) ==> x in r
    decreases |rows|
  {
    if rows == [] then []
    else (if Matches(rows[0], query) then [rows[0]] else []) + Filter(rows[1..], query)
  }

  /** `r` is obtained from `s` by deleting elements, keeping the order of the rest. */
  ghost predicate IsSubsequence(r: seq<Lead>, s: seq<Lead>)
    decreases |s|
  {
    r == [] ||
    (s != [] && ((r[0] == s[0] && IsSubsequence(r[1..], s[1..])) || IsSubsequence(r, s[1..])))
  }

  /** The filtered rows appear in the same order as in the unfiltered rows. */
  lemma {:induction false} FilterIsSubsequence(rows: seq<Lead>, query: string)
    ensures IsSubsequence(Filter(rows, query), rows)
    decreases |rows|
  {
    if rows != [] {
      FilterIsSubsequence(rows[1..], query);
      var r := Filter(rows, query);
      if Matches(rows[0], query) {
        assert r[0] == rows[0] && r[1..] == Filter(rows[1..], query);
      } else {
        assert r == Filter(rows[1..], query);
      }
    }
  }

  /** The first row of a non-empty list is kept or dropped, then the rest is filtered. */
  lemma FilterCons(rows: seq<Lead>, query: string)
    requires rows != []
    ensures Filter(rows, query) == (if Matches(rows[0], query) then [rows[0]] else []) + Filter(rows[1..], query)
  {
  }

  /** Filtering works row by row: filtering a concatenation concatenates the results,
      which together with the one-row case fixes the result and its order. */
  lemma {:induction false} FilterAppend(a: seq<Lead>, b: seq<Lead>, query: string)
    ensures Filter(a + b, query) == Filter(a, query) + Filter(b, query)
    decreases |a|
  {
    if a == [] {
      assert a + b == b;
    } else {
      FilterAppend(a[1..], b, query);
      assert (a + b)[0] == a[0];
      assert (a + b)[1..] == a[1..] + b;
      FilterCons(a + b, query);
      FilterCons(a, query);
      var head := if Matches(a[0], query) then [a[0]] else [];
      assert Filter(a + b, query) == head + (Filter(a[1..], query) + Filter(b, query));
      assert head + (Filter(a[1..], query) + Filter(b, query)) == (head + Filter(a[1..], query)) + Filter(b, query);
    }
  }

  /** A one-row list is kept exactly when the row matches. */
  lemma FilterSingle(x: Lead, query: string)
    ensures Filter([x], query) == if Matches(x, query) then [x] else []
  {
  }

  // ---------------------------------------------------------------------------
  // Row-level transformations (the `map` expressions of the handlers)

  /** `rows.map((row, index) => index === i ? x : row)`. */
  function Replace(rows: seq<Lead>, i: nat, x: Lead): (r: seq<Lead>)
    ensures |r| == |rows|
    ensures i < |rows| ==> r[i] == x
    ensures forall j :: 0 <= j < |rows| && j != i ==> r[j] == rows[j]
  {
    if i < |rows| then rows[i := x] else rows
  }

  /** The `updateData` transformation: field `c` of row `i` becomes `v`. */
  function UpdateRow(rows: seq<Lead>, i: nat, c: Column, v: string): (r: seq<Lead>)
    ensures |r| == |rows|
    ensures i < |rows| ==> r[i].Get(c) == v
    ensures i < |rows| ==> forall d :: d != c ==> r[i].Get(d) == rows[i].Get(d)
    ensures forall j :: 0 <= j < |rows| && j != i ==> r[j] == rows[j]
  {
    if i < |rows| then Replace(rows, i, rows[i].With(c, v)) else rows
  }

  /** One call of `updateData(row, col, value)`. */
  datatype Edit = Edit(row: nat, col: Column, value: string)

  /** The rows after a sequence of `updateData` calls, in order. */
  function ApplyEdits(rows: seq<Lead>, edits: seq<Edit>): (r: seq<Lead>)
    ensures |r| == |rows|
    decreases |edits|
  {
    if edits == [] then rows
    else ApplyEdits(UpdateRow(rows, edits[0].row, edits[0].col, edits[0].value), edits[1..])
  }

  /** Edits to rows other than `i` leave row `i` alone. */
  lemma {:induction false} ApplyEditsElsewhere(rows: seq<Lead>, edits: seq<Edit>, i: nat)
    requires i < |rows|
    requires forall k :: 0 <= k < |edits| ==> edits[k].row != i
    ensures ApplyEdits(rows, edits)[i] == rows[i]
    decreases |edits|
  {
    if edits != [] {
      var next := UpdateRow(rows, edits[0].row, edits[0].col, edits[0].value);
      ApplyEditsElsewhere(next, edits[1..], i);
    }
  }

  /** Done on row `i`, then any `updateData` calls on any rows, then Cancel on row `i`:
      row `i` is back to what it was when Done was pressed, and every other row keeps
      its edited value. */
  lemma CancelAfterDoneRestores(data: seq<Lead>, originalData: seq<Lead>, i: nat, edits: seq<Edit>)
    requires i < |data| <= |originalData|
    ensures var committed := Replace(originalData, i, data[i]);
            var edited := ApplyEdits(data, edits);
            var cancelled := Replace(edited, i, committed[i]);
            cancelled[i] == data[i] &&
            (forall j :: 0 <= j < |data| && j != i ==> cancelled[j] == edited[j])
  {
  }

  // ---------------------------------------------------------------------------
  // Edit flags

  /** A row is in edit mode when its flag is present and true (`editedRows[row.id]`). */
  predicate IsEditing(flags: map<nat, bool>, row: nat)
    ensures row !in flags ==> !IsEditing(flags, row)
    ensures IsEditing(flags, row) ==> row in flags && flags[row]
  {
    row in flags && flags[row]
  }

  /** `{ ...old, [row.id]: !old[row.id] }`; a missing flag reads as false. */
  function Toggle(flags: map<nat, bool>, row: nat): (r: map<nat, bool>)
    ensures r.Keys == flags.Keys + {row}
    ensures IsEditing(r, row) == !IsEditing(flags, row)
    ensures forall k :: k in flags && k != row ==> r[k] == flags[k]
  {
    flags[row := !IsEditing(flags, row)]
  }

  /** Toggling a flag twice gives back the same edit modes for every row, and
      the very same map when the row already had a flag. */
  lemma ToggleTwice(flags: map<nat, bool>, row: nat)
    ensures forall k :: IsEditing(Toggle(Toggle(flags, row), row), k) == IsEditing(flags, k)
    ensures row in flags ==> Toggle(Toggle(flags, row), row) == flags
  {
  }

  // ---------------------------------------------------------------------------
  // Per-cell draft values

  /** A TableCell instance: React keeps it, and its `value` state, per displayed row index and column. */
  datatype Cell = Cell(row: nat, col: Column)

  /** The TableCell effect on `initialValue`: a draft survives a change of `data` only
      while its row is still displayed and its cell value did not change; otherwise
      the cell shows the value in `data` again. */
  function Resync(drafts: map<Cell, string>, before: seq<Lead>, after: seq<Lead>): (r: map<Cell, string>)
    ensures forall k :: k in r ==> k in drafts && r[k] == drafts[k]
    ensures forall k :: (k in drafts && k.row < |before| && k.row < |after| &&
                         before[k.row].Get(k.col) == after[k.row].Get(k.col)) ==> k in r
    ensures forall k :: k in r ==> k.row < |after|
    ensures forall k :: k in r ==> k.row < |before| && before[k.row].Get(k.col) == after[k.row].Get(k.col)
  {
    map k | k in drafts && k.row < |before| && k.row < |after| &&
            before[k.row].Get(k.col) == after[k.row].Get(k.col) :: drafts[k]
  }

  /** The buttons of EditCell: "edit" in view mode, "cancel" and "done" in edit mode. */
  datatype Button = EditButton | CancelButton | DoneButton

  // ---------------------------------------------------------------------------
  // The component

  class Table {
    /** The module-level `defaultData` array the component copies and searches. */
    const defaultData: seq<Lead>
    var data: seq<Lead>
    var originalData: seq<Lead>
    var editedRows: map<nat, bool>
    var searchQuery: string
    var drafts: map<Cell, string>

    /** `originalData` always has as many rows as `defaultData` (only `map` ever replaces it), and
        the displayed rows are it or a filtered part of `defaultData`; drafts belong
        to displayed cells. */
    ghost predicate Valid()
      reads this
    {
      && |originalData| == |defaultData|
      && |data| <= |originalData|
      && (forall k :: k in drafts ==> k.row < |data|)
    }

    /** What cell (`row`, `col`) shows: its draft, or the value in `data`. */
    function Shown(row: nat, col: Column): (v: string)
      reads this
      requires row < |data|
      ensures Cell(row, col) !in drafts ==> v == data[row].Get(col)
      ensures Cell(row, col) in drafts ==> v == drafts[Cell(row, col)]
    {
      if Cell(row, col) in drafts then drafts[Cell(row, col)] else data[row].Get(col)
    }

    /** Mount: both row lists are copies of `defaultData`, no flags, empty query. */
    constructor ()
      ensures Valid()
      ensures defaultData == DefaultData()
      ensures data == DefaultData() && originalData == DefaultData()
      ensures editedRows == map[] && searchQuery == "" && drafts == map[]
    {
      defaultData := DefaultData();
      data := DefaultData();
      originalData := DefaultData();
      editedRows := map[];
      searchQuery := "";
      drafts := map[];
    }

    /** `updateData(rowIndex, columnId, value)`: one field of one displayed row. */
    method UpdateData(rowIndex: nat, columnId: Column, value: string)
      requires Valid()
      modifies this
      ensures Valid()
      ensures data == UpdateRow(old(data), rowIndex, columnId, value)
      ensures originalData == old(originalData)
      ensures editedRows == old(editedRows) && searchQuery == old(searchQuery)
      ensures drafts == Resync(old(drafts), old(data), data)
    {
      var next := UpdateRow(data, rowIndex, columnId, value);
      drafts := Resync(drafts, data, next);
      data := next;
    }

    /** `revertData(rowIndex, revert)`: Cancel copies the committed row into the
        displayed one; Done copies the displayed row into the committed list, at
        the same index. */
    method RevertData(rowIndex: nat, revert: bool)
      requires Valid()
      requires rowIndex < |data|
      modifies this
      ensures Valid()
      ensures revert ==> data == Replace(old(data), rowIndex, old(originalData)[rowIndex])
      ensures revert ==> originalData == old(originalData)
      ensures revert ==> drafts == Resync(old(drafts), old(data), data)
      ensures !revert ==> originalData == Replace(old(originalData), rowIndex, old(data)[rowIndex])
      ensures !revert ==> data == old(data) && drafts == old(drafts)
      ensures editedRows == old(editedRows) && searchQuery == old(searchQuery)
    {
      if revert {
        var next := Replace(data, rowIndex, originalData[rowIndex]);
        drafts := Resync(drafts, data, next);
        data := next;
      } else {
        originalData := Replace(originalData, rowIndex, data[rowIndex]);
      }
    }

    /** A click on one of EditCell's buttons: the row's flag flips, and unless the
        button is "edit", `revertData` runs once with `revert` true just for "cancel". */
    method PressButton(rowIndex: nat, button: Button)
      requires Valid()
      requires rowIndex < |data|
      requires (button == EditButton) == !IsEditing(editedRows, rowIndex)
      modifies this
      ensures Valid()
      ensures editedRows == Toggle(old(editedRows), rowIndex)
      ensures IsEditing(editedRows, rowIndex) == (button == EditButton)
      ensures button == EditButton ==>
                data == old(data) && originalData == old(originalData) && drafts == old(drafts)
      ensures button == CancelButton ==>
                data == Replace(old(data), rowIndex, old(originalData)[rowIndex]) &&
                originalData == old(originalData) &&
                drafts == Resync(old(drafts), old(data), data)
      ensures button == DoneButton ==>
                originalData == Replace(old(originalData), rowIndex, old(data)[rowIndex]) &&
                data == old(data) && drafts == old(drafts)
      ensures searchQuery == old(searchQuery)
    {
      editedRows := Toggle(editedRows, rowIndex);
      if button != EditButton {
        RevertData(rowIndex, button == CancelButton);
      }
    }

    /** Typing into a text input (`onChange`): only the cell's draft changes. */
    method TypeText(row: nat, col: Column, text: string)
      requires Valid()
      requires row < |data| && IsEditing(editedRows, row) && col != Country
      modifies this
      ensures Valid()
      ensures drafts == old(drafts)[Cell(row, col) := text]
      ensures Shown(row, col) == text
      ensures data == old(data) && originalData == old(originalData)
      ensures editedRows == old(editedRows) && searchQuery == old(searchQuery)
    {
      drafts := drafts[Cell(row, col) := text];
    }

    /** Leaving a text input (`onBlur`): the shown value is written into `data`. */
    method Blur(row: nat, col: Column)
      requires Valid()
      requires row < |data| && IsEditing(editedRows, row) && col != Country
      modifies this
      ensures Valid()
      ensures data == UpdateRow(old(data), row, col, old(Shown(row, col)))
      ensures Shown(row, col) == old(Shown(row, col))
      ensures drafts == Resync(old(drafts), old(data), data)
      ensures originalData == old(originalData)
      ensures editedRows == old(editedRows) && searchQuery == old(searchQuery)
    {
      var value := Shown(row, col);
      UpdateData(row, col, value);
    }

    /** Choosing a country in the select (`onSelectChange`): draft and `data` change at once. */
    method SelectOption(row: nat, col: Column, choice: string)
      requires Valid()
      requires row < |data| && IsEditing(editedRows, row) && col == Country
      modifies this
      ensures Valid()
      ensures data == UpdateRow(old(data), row, col, choice)
      ensures Shown(row, col) == choice
      ensures drafts == Resync(old(drafts)[Cell(row, col) := choice], old(data), data)
      ensures originalData == old(originalData)
      ensures editedRows == old(editedRows) && searchQuery == old(searchQuery)
    {
      drafts := drafts[Cell(row, col) := choice];
      UpdateData(row, col, choice);
    }

    /** A new search query and the effect it triggers: an empty query shows
        `originalData`; any other shows the matching rows of `defaultData`
        (not of `originalData`). Re-entering the current query changes nothing. */
    method SetSearchQuery(query: string)
      requires Valid()
      modifies this
      ensures Valid()
      ensures searchQuery == query
      ensures query == old(searchQuery) ==> data == old(data) && drafts == old(drafts)
      ensures query != old(searchQuery) && query == "" ==> data == old(originalData)
      ensures query != old(searchQuery) && query != "" ==> data == Filter(defaultData, query)
      ensures query != old(searchQuery) ==> drafts == Resync(old(drafts), old(data), data)
      ensures originalData == old(originalData) && editedRows == old(editedRows)
    {
      if query != searchQuery {
        searchQuery := query;
        var next := if query == "" then originalData else Filter(defaultData, query);
        drafts := Resync(drafts, data, next);
        data := next;
      }
    }
  }

  // ---------------------------------------------------------------------------
  // Consequences for the default rows

  /** A query holding a character the text lacks is not included in it. */
  lemma MissingCharExcludes(s: string, p: string, ch: char)
    requires ch in p && ch !in s
    ensures !Includes(s, p)
  {
  }

  /** A row whose name lacks a letter of the query, in either case, does not match. */
  lemma MissingLetterNoMatch(lead: Lead, query: string, ch: char)
    requires 'a' <= ch <= 'z' && ch in Lower(query)
    requires ch !in lead.name && (ch as int - 32) as char !in lead.name
    ensures !Matches(lead, query)
  {
    var low := Lower(lead.name);
    forall i | 0 <= i < |low| ensures low[i] != ch {
      assert lead.name[i] in lead.name;
    }
    MissingCharExcludes(low, Lower(query), ch);
  }

  /** No default name but Mary Lopez's has a 'y' in either case (first half). */
  lemma NamesWithoutY1()
    ensures 'y' !in "Jorge Ruiz" && 'Y' !in "Jorge Ruiz" &&
            'y' !in "Bahar Zamir" && 'Y' !in "Bahar Zamir" &&
            'y' !in "Li Zijin" && 'Y' !in "Li Zijin"
  {
  }

  /** No default name but Mary Lopez's has a 'y' in either case (second half). */
  lemma NamesWithoutY2()
    ensures 'y' !in "Mark Antonov" && 'Y' !in "Mark Antonov" &&
            'y' !in "Jane Ma" && 'Y' !in "Jane Ma" &&
            'y' !in "Anand Jain" && 'Y' !in "Anand Jain" &&
            'y' !in "Anna Voronova" && 'Y' !in "Anna Voronova"
  {
  }

  /** A row whose name starts with the query, up to letter case, matches. */
  lemma PrefixMatches(lead: Lead, query: string)
    requires |query| <= |lead.name| && Lower(lead.name[..|query|]) == Lower(query)
    ensures Matches(lead, query)
  {
  }

  /** Of the default rows, only Mary Lopez's matches a spelling of "mary". */
  lemma DefaultRowsMatchingMary(query: string)
    requires Lower(query) == "mary"
    ensures var rows := DefaultData();
            && !Matches(rows[0], query) && !Matches(rows[1], query)
            && Matches(rows[2], query) && !Matches(rows[3], query)
            && !Matches(rows[4], query) && !Matches(rows[5], query)
            && !Matches(rows[6], query) && !Matches(rows[7], query)
  {
    var rows := DefaultData();
    NamesWithoutY1();
    NamesWithoutY2();
    assert rows[2].name[..4] == "Mary";
    assert Lower("Mary") == "mary";
    PrefixMatches(rows[2], query);
    MissingLetterNoMatch(rows[0], query, 'y');
    MissingLetterNoMatch(rows[1], query, 'y');
    MissingLetterNoMatch(rows[3], query, 'y');
    MissingLetterNoMatch(rows[4], query, 'y');
    MissingLetterNoMatch(rows[5], query, 'y');
    MissingLetterNoMatch(rows[6], query, 'y');
    MissingLetterNoMatch(rows[7], query, 'y');
  }

  /** Searching "mary", in any letter case, shows exactly the row of Mary Lopez. */
  lemma SearchMary(query: string)
    requires Lower(query) == "mary"
    ensures Filter(DefaultData(), query) == [DefaultData()[2]]
  {
    var rows, q := DefaultData(), query;
    DefaultRowsMatchingMary(q);
    assert Filter(rows[8..], q) == [];
    assert Filter(rows[7..], q) == [];
    assert Filter(rows[6..], q) == [];
    assert Filter(rows[5..], q) == [];
    assert Filter(rows[4..], q) == [];
    assert Filter(rows[3..], q) == [];
    assert Filter(rows[2..], q) == [rows[2]];
    assert Filter(rows[1..], q) == [rows[2]];
    assert Filter(rows[0..], q) == [rows[2]];
    assert rows[0..] == rows;
  }

  /** Row indices are positions in the shown list while `originalData` is the full
      list: pressing Done on the only row shown for "mary" (index 0) writes Mary
      Lopez's row over Jorge Ruiz's committed row. */
  lemma DoneWhileSearchingMary(query: string)
    requires Lower(query) == "mary"
    ensures |Filter(DefaultData(), query)| == 1
    ensures var shown := Filter(DefaultData(), query);
            var committed := Replace(DefaultData(), 0, shown[0]);
            committed[0] == DefaultData()[2] && committed[0] != DefaultData()[0]
  {
    var rows := DefaultData();
    SearchMary(query);
    var shown := Filter(rows, query);
    assert shown[0] == rows[2];
    assert rows[2].name[0] == 'M' && rows[0].name[0] == 'J';
  }
}
