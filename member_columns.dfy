/** The member table's columns (src/components/ViewMembers/table/columns.tsx):
    the avatar initials, the sort toggle, the accessor keys and the row
    actions. */
module MemberColumns {
  import opened Common
  import opened Types
  import opened Strings

  /** `s.charAt(0)`: the first character, or "" for the empty string. */
  function CharAt0(s: string): (r: string)
    ensures |r| <= 1 && (s != "" ==> r == [s[0]])
  {
    if s == "" then "" else [s[0]]
  }

  /** `fullNamesplit[0].charAt(0) + fullNamesplit[1].charAt(0)`; `None` stands
      for the TypeError thrown when there is no second piece. */
  function Initials(fullName: string): Option<string>
  {
    var parts := SplitOnSpace(fullName);
    if |parts| < 2 then None else Some(CharAt0(parts[0]) + CharAt0(parts[1]))
  }

  /** `split(" ")` yields a second piece exactly when there is a space. */
  lemma {:induction false} SplitHasSecondPiece(s: string)
    ensures |SplitOnSpace(s)| >= 2 <==> ' ' in s
    decreases |s|
  {
    if s != [] {
      SplitHasSecondPiece(s[1..]);
      assert s == [s[0]] + s[1..];
      assert ' ' in s <==> s[0] == ' ' || ' ' in s[1..];
    }
  }

  /** Rendering throws exactly for a name without a space. */
  lemma InitialsDefinedIffSpace(fullName: string)
    ensures Initials(fullName).Some? <==> ' ' in fullName
  {
    SplitHasSecondPiece(fullName);
  }

  /** Two words and whatever follows: the initials are the words' first
      letters, and the rest does not matter. */
  lemma InitialsOfTwoWords(first: string, second: string, rest: string)
    requires first != "" && second != ""
    requires ' ' !in first && ' ' !in second
    ensures Initials(first + " " + second + rest) == Some([first[0], second[0]])
    ensures rest == "" || rest[0] == ' ' ==> Initials(first + " " + second + rest) == Initials(first + " " + second)
  {
    InitialsAfter(first, second, rest);
    InitialsAfter(first, second, "");
    assert first + " " + second + "" == first + " " + second;
  }

  lemma InitialsAfter(first: string, second: string, rest: string)
    requires first != "" && second != ""
    requires ' ' !in first && ' ' !in second
    ensures Initials(first + " " + second + rest) == Some([first[0], second[0]])
  {
    var t := " " + second + rest;
    assert first + " " + second + rest == first + t;
    assert t[0] == ' ' && t[1..] == second + rest;
    var st := SplitOnSpace(t);
    assert st == [""] + SplitOnSpace(second + rest);
    SplitAfterWord(first, t);
    SplitAfterWord(second, rest);
    var parts := SplitOnSpace(first + t);
    assert parts == [first + st[0]] + st[1..];
    assert parts[0] == first;
    assert parts[1] == st[1] == SplitOnSpace(second + rest)[0] == second + SplitOnSpace(rest)[0];
    assert CharAt0(parts[0]) == [first[0]];
    assert parts[1][0] == second[0];
    assert CharAt0(parts[0]) + CharAt0(parts[1]) == [first[0], second[0]];
  }

  /** A doubled space leaves an empty second piece, so only one initial shows,
      whatever follows. */
  lemma DoubleSpaceDropsSecondInitial(first: string, rest: string)
    requires first != "" && ' ' !in first
    ensures Initials(first + "  " + rest) == Some([first[0]])
  {
    var t := "  " + rest;
    assert first + "  " + rest == first + t;
    SplitAfterWord(first, t);
    assert t[0] == ' ' && t[1..] == " " + rest;
    assert SplitOnSpace(t) == [""] + SplitOnSpace(" " + rest);
    assert (" " + rest)[0] == ' ' && (" " + rest)[1..] == rest;
    assert SplitOnSpace(" " + rest) == [""] + SplitOnSpace(rest);
    var parts := SplitOnSpace(first + t);
    assert parts[0] == first + "" && parts[1] == "";
    assert CharAt0(parts[0]) + CharAt0(parts[1]) == [first[0]];
  }

  /** "Ann  Lee" shows the single initial "A". */
  lemma DoubleSpaceExample()
    ensures Initials("Ann  Lee") == Some("A")
  {
    assert ' ' !in "Ann" by {
      assert "Ann"[0] == 'A' && "Ann"[1] == 'n' && "Ann"[2] == 'n';
    }
    DoubleSpaceDropsSecondInitial("Ann", "Lee");
    assert "Ann" + "  " + "Lee" == "Ann  Lee";
  }

  /** What `column.getIsSorted()` reports. */
  datatype SortState = Unsorted | Ascending | Descending

  /** `column.toggleSorting(column.getIsSorted() === "asc")`: descending when
      currently ascending, ascending otherwise. */
  function RequestedDirection(current: SortState): (next: SortState)
    ensures next != Unsorted
    ensures next == Descending <==> current == Ascending
  {
    if current == Ascending then Descending else Ascending
  }

  /** Repeated clicks alternate between the two directions. */
  lemma ToggleAlternates(current: SortState)
    ensures RequestedDirection(RequestedDirection(current)) != RequestedDirection(current)
  {
  }

  /** One column: its accessor key, its header text and whether its header
      toggles sorting. */
  datatype Column = Column(accessorKey: string, header: string, sortable: bool)

  const Columns: seq<Column> := [
    Column("fullName", "Full Name", true),
    Column("email", "Email", true),
    Column("NIC", "Books Borrowed", true),
    Column("Actions", "Actions", false)
  ]

  /** A field's value as the table reads it: text or a number. */
  datatype FieldValue = Text(text: string) | Number(number: int)

  function TextField(v: Option<string>): Option<FieldValue>
  {
    if v.Some? then Some(Text(v.value)) else None
  }

  /** The member's field named `key`, as the table reads it for sorting;
      keys that are not fields of `Member` read as absent. */
  function AccessorValue(m: Member, key: string): Option<FieldValue>
  {
    if key == "id" then Some(Text(m.id))
    else if key == "fullName" then Some(Text(m.fullName))
    else if key == "address" then TextField(m.address)
    else if key == "nic" then TextField(m.nic)
    else if key == "telephone" then TextField(m.telephone)
    else if key == "email" then TextField(m.email)
    else if key == "dob" then TextField(m.dob)
    else if key == "imageUrl" then TextField(m.imageUrl)
    else if key == "noOfBooksBorrowed" then
      (if m.noOfBooksBorrowed.Some? then Some(Number(m.noOfBooksBorrowed.value)) else None)
    else None
  }

  /** What the "Books Borrowed" cell shows. */
  function BooksBorrowedCell(m: Member): Option<int>
  {
    m.noOfBooksBorrowed
  }

  /** The "Books Borrowed" column sorts on "NIC", which no member has (the
      field is `nic`), while its cell shows the borrow count: every row has
      the same sort key whatever it displays. */
  lemma BooksBorrowedColumnSortsOnNothing(m1: Member, m2: Member)
    ensures Columns[2].header == "Books Borrowed" && Columns[2].sortable
    ensures AccessorValue(m1, Columns[2].accessorKey) == AccessorValue(m2, Columns[2].accessorKey) == None
    ensures AccessorValue(m1, "noOfBooksBorrowed").Some? <==> BooksBorrowedCell(m1).Some?
  {
  }

  /** The row's action buttons. */
  datatype RowAction = EditMember(id: string) | DeleteMember(id: string)

  function RowActions(m: Member): (acts: seq<RowAction>)
    ensures |acts| == 2 && acts[0].EditMember? && acts[1].DeleteMember?
    ensures forall i :: 0 <= i < |acts| ==> acts[i].id == m.id
  {
    [EditMember(m.id), DeleteMember(m.id)]
  }
}
