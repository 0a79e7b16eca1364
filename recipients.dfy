/**
 * The recipient list of a dispatch run (app.py, `send_emails_task`): the first column
 * whose lower-cased header contains "email" is taken, rows whose cell there is missing
 * are dropped, and every remaining cell is stripped of surrounding whitespace, in
 * row order.
 */
module Recipients {
  import opened Wrappers
  import opened Text

  /** One column as the tabular reader yields it: the header and the cells, `None` for a missing value. */
  datatype Column = Column(header: string, cells: seq<Option<string>>)

  datatype Table = Table(columns: seq<Column>)

  /** `t in s`: `t` occurs in `s` as a contiguous substring. */
  predicate Contains(s: string, t: string)
    decreases |s|
  {
    t <= s || (s != [] && Contains(s[1..], t))
  }

  /** `'email' in header.lower()`. */
  predicate MentionsEmail(header: string) {
    Contains(LowerString(header), "email")
  }

  /** `next((col for col in columns if 'email' in col.lower()), None)`, as a column index. */
  function EmailColumn(columns: seq<Column>): (r: Option<nat>)
    ensures r.Some? ==> r.value < |columns| && MentionsEmail(columns[r.value].header)
    ensures r.Some? ==> forall j :: 0 <= j < r.value ==> !MentionsEmail(columns[j].header)
    ensures r.None? <==> forall j :: 0 <= j < |columns| ==> !MentionsEmail(columns[j].header)
  {
    if columns == [] then None
    else if MentionsEmail(columns[0].header) then Some(0)
    else
      match EmailColumn(columns[1..])
      case None => None
      case Some(k) => Some(k + 1)
  }

  /** `cells.dropna().str.strip().tolist()`. */
  function Addresses(cells: seq<Option<string>>): (r: seq<string>)
    ensures |r| <= |cells|
  {
    if cells == [] then []
    else
      var rest := Addresses(cells[..|cells| - 1]);
      match cells[|cells| - 1]
      case None => rest
      case Some(c) => rest + [Strip(c)]
  }

  /** The positions of the cells that are present, in ascending order. */
  function Present(cells: seq<Option<string>>): (idx: seq<nat>)
    ensures forall k :: 0 <= k < |idx| ==> idx[k] < |cells| && cells[idx[k]].Some?
    ensures forall k, l :: 0 <= k < l < |idx| ==> idx[k] < idx[l]
    ensures forall j :: 0 <= j < |cells| && cells[j].Some? ==> j in idx
  {
    if cells == [] then []
    else
      var rest := Present(cells[..|cells| - 1]);
      if cells[|cells| - 1].Some? then rest + [|cells| - 1] else rest
  }

  /**
   * The address list keeps exactly the present cells, in row order, each stripped:
   * its k-th address is the stripped k-th present cell.
   */
  lemma {:induction false} AddressesArePresentCells(cells: seq<Option<string>>)
    ensures |Addresses(cells)| == |Present(cells)|
    ensures forall k :: 0 <= k < |Present(cells)| ==>
              Addresses(cells)[k] == Strip(cells[Present(cells)[k]].value)
  {
    if cells != [] {
      var init := cells[..|cells| - 1];
      AddressesArePresentCells(init);
      forall k | 0 <= k < |Present(init)|
        ensures cells[Present(init)[k]] == init[Present(init)[k]]
      {
      }
      if cells[|cells| - 1].Some? {
        assert Present(cells) == Present(init) + [|cells| - 1];
        assert Addresses(cells) == Addresses(init) + [Strip(cells[|cells| - 1].value)];
      } else {
        assert Present(cells) == Present(init);
        assert Addresses(cells) == Addresses(init);
      }
    }
  }

  /** Every address has no whitespace at either end. */
  lemma AddressesStripped(cells: seq<Option<string>>)
    ensures forall k :: 0 <= k < |Addresses(cells)| ==>
              var a := Addresses(cells)[k];
              a == [] || (!IsSpace(a[0]) && !IsSpace(a[|a| - 1]))
  {
    AddressesArePresentCells(cells);
    forall k | 0 <= k < |Addresses(cells)|
      ensures var a := Addresses(cells)[k]; a == [] || (!IsSpace(a[0]) && !IsSpace(a[|a| - 1]))
    {
      StripSpec(cells[Present(cells)[k]].value);
    }
  }

  /** The column with no missing cell loses no row. */
  lemma {:induction false} NoneMissing(cells: seq<Option<string>>)
    requires forall j :: 0 <= j < |cells| ==> cells[j].Some?
    ensures |Addresses(cells)| == |cells|
  {
    if cells != [] {
      NoneMissing(cells[..|cells| - 1]);
    }
  }

  /**
   * The list a run sends to: `None` exactly when no header contains "email",
   * otherwise the normalised cells of the first such column.
   */
  function RecipientList(t: Table): (r: Option<seq<string>>)
    ensures r.None? <==> forall j :: 0 <= j < |t.columns| ==> !MentionsEmail(t.columns[j].header)
    ensures r.Some? ==> exists j :: 0 <= j < |t.columns| && MentionsEmail(t.columns[j].header)
                                    && (forall i :: 0 <= i < j ==> !MentionsEmail(t.columns[i].header))
                                    && r.value == Addresses(t.columns[j].cells)
  {
    match EmailColumn(t.columns)
    case None => None
    case Some(i) => Some(Addresses(t.columns[i].cells))
  }

  /** A column that has rows but no value in any of them. */
  predicate NoValue(cells: seq<Option<string>>) {
    cells != [] && forall j :: 0 <= j < |cells| ==> cells[j].None?
  }

  /**
   * `.str.strip()` raises on the chosen column: a column with rows and no value at all
   * is typed as floating point by the tabular reader, and has no string methods.
   */
  predicate StripRaises(t: Table) {
    match EmailColumn(t.columns)
    case None => false
    case Some(i) => NoValue(t.columns[i].cells)
  }

  /** A file whose "Email" column has one row and no value: `.str.strip()` raises on it. */
  lemma EmailColumnWithoutValue()
    ensures EmailColumn([Column("Email", [None])]) == Some(0)
    ensures StripRaises(Table([Column("Email", [None])]))
  {
    assert LowerString("Email") == "email";
    assert MentionsEmail("Email");
  }

  /** The address list is empty exactly when the column has no present cell. */
  lemma AddressesEmpty(cells: seq<Option<string>>)
    ensures Addresses(cells) == [] <==> forall j :: 0 <= j < |cells| ==> cells[j].None?
  {
    AddressesArePresentCells(cells);
    if Present(cells) != [] {
      assert cells[Present(cells)[0]].Some?;
    }
  }

  /**
   * The list is empty exactly when there is an email column and either it has no rows,
   * or `.str.strip()` raises on it because none of its rows has a value.
   */
  lemma EmptyList(t: Table)
    ensures RecipientList(t) == Some([]) <==>
              EmailColumn(t.columns).Some? && (t.columns[EmailColumn(t.columns).value].cells == [] || StripRaises(t))
  {
    if EmailColumn(t.columns).Some? {
      AddressesEmpty(t.columns[EmailColumn(t.columns).value].cells);
    }
  }

  /** `t` occurs in `s` starting at position `i`. */
  predicate OccursAt(s: string, t: string, i: nat) {
    i + |t| <= |s| && s[i..i + |t|] == t
  }

  /** `Contains` is substring search: `t` occurs at some position of `s`. */
  lemma {:induction false} ContainsIsSubstring(s: string, t: string)
    ensures Contains(s, t) <==> exists i: nat :: OccursAt(s, t, i)
    decreases |s|
  {
    if t <= s {
      assert OccursAt(s, t, 0);
    } else if s != [] {
      ContainsIsSubstring(s[1..], t);
      if Contains(s[1..], t) {
        var i: nat :| OccursAt(s[1..], t, i);
        assert OccursAt(s, t, i + 1);
      } else {
        forall i: nat | OccursAt(s, t, i)
          ensures false
        {
          if i > 0 {
            assert OccursAt(s[1..], t, i - 1);
          }
        }
      }
    }
  }

  /** Matching ignores the case of ASCII letters in the header. */
  lemma MentionsEmailIgnoresCase(header: string)
    ensures MentionsEmail(LowerString(header)) == MentionsEmail(header)
  {
    LowerIdempotent(header);
  }
}
