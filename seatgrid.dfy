/**
 * The seat map component: row labels, seat numbering, the booked and
 * selected tests, the status of each seat, the aisle gap, the click guard
 * and what a seat displays.
 */
module SeatGrid {
  import opened Wrappers
  import opened Text

  const RowLetters: string := "ABCDEFGHIJKLMNOPQRSTUVWXYZ"

  /** `rowLabels[rIndex]`: a letter for the first 26 rows, `undefined` (`None`) after them. */
  function RowLabel(r: nat): (l: Option<string>)
    ensures l.Some? <==> r < 26
    ensures l.Some? ==> l.value == [RowLetters[r]] && 'A' <= l.value[0] <= 'Z'
  {
    if r < |RowLetters| then Some([RowLetters[r]]) else None
  }

  /** Different rows among the first 26 have different labels. */
  lemma RowLabelsDistinct(r1: nat, r2: nat)
    requires r1 < 26 && r2 < 26 && r1 != r2
    ensures RowLabel(r1) != RowLabel(r2)
  {
    assert forall i :: 0 <= i < 26 ==> RowLetters[i] as int == 'A' as int + i;
    assert RowLabel(r1).value[0] != RowLabel(r2).value[0];
  }

  /**
   * An element of `bookedSeats`: the server's `{seat_row, seat_number}`,
   * or a `{row, number}` object; a field the object lacks is `None`.
   */
  datatype BookedEntry = BookedEntry(row: Option<string>, number: Option<int>, seatRow: Option<string>, seatNumber: Option<int>)

  /** A seat as the client passes it around: `{row, number}`; the row label may be `undefined`. */
  datatype SeatKey = SeatKey(row: Option<string>, number: int)

  /** One entry names the seat, under either pair of field names (strict equality, so `undefined` matches `undefined`). */
  predicate Names(e: BookedEntry, rowLabel: Option<string>, number: int) {
    (e.row == rowLabel || e.seatRow == rowLabel) && (e.number == Some(number) || e.seatNumber == Some(number))
  }

  /** `bookedSeats.some(...)`: some entry matches the seat's row and its number. */
  function IsBooked(booked: seq<BookedEntry>, rowLabel: Option<string>, number: int): (r: bool)
    ensures r <==> exists k :: 0 <= k < |booked| && Names(booked[k], rowLabel, number)
  {
    if booked == [] then false
    else
      var r := Names(booked[0], rowLabel, number) || IsBooked(booked[1..], rowLabel, number);
      assert forall k :: 1 <= k < |booked| ==> booked[k] == booked[1..][k - 1];
      r
  }

  /** The server's own listing format is understood: a `{seat_row, seat_number}` entry books its seat. */
  lemma ServerEntryBooks(rowLabel: string, number: int)
    ensures IsBooked([BookedEntry(None, None, Some(rowLabel), Some(number))], Some(rowLabel), number)
  {
    assert Names(BookedEntry(None, None, Some(rowLabel), Some(number)), Some(rowLabel), number);
  }

  /**
   * Past row 26 the label is `undefined`, and an entry without a `row`
   * field matches it: a server entry books the seat of that number in
   * every unlabelled row.
   */
  lemma UnlabelledRowsMatchServerEntries(rowLabel: string, number: int, r: nat)
    requires r >= 26
    ensures IsBooked([BookedEntry(None, None, Some(rowLabel), Some(number))], RowLabel(r), number)
  {
    assert Names(BookedEntry(None, None, Some(rowLabel), Some(number)), RowLabel(r), number);
  }

  /** `selectedSeats.some(s => s.row === rowLabel && s.number === seatNum)`. */
  function IsSelected(selected: seq<SeatKey>, rowLabel: Option<string>, number: int): (r: bool)
    ensures r <==> SeatKey(rowLabel, number) in selected
  {
    if selected == [] then false
    else
      assert selected == [selected[0]] + selected[1..];
      selected[0] == SeatKey(rowLabel, number) || IsSelected(selected[1..], rowLabel, number)
  }

  datatype SeatStatus = Available | Selected | Booked

  /** Booked wins over selected, selected over available. */
  function StatusOf(isBooked: bool, isSelected: bool): (r: SeatStatus)
    ensures r == Booked <==> isBooked
    ensures r == Selected <==> !isBooked && isSelected
    ensures r == Available <==> !isBooked && !isSelected
  {
    if isBooked then Booked else if isSelected then Selected else Available
  }

  /** A rendered element of a row: the aisle spacer or a seat. */
  datatype Cell = Aisle | SeatCell(key: SeatKey, status: SeatStatus)

  /** The seat at column index `c` (number `c + 1`) of a row, with its status. */
  function SeatAt(rowLabel: Option<string>, c: nat, booked: seq<BookedEntry>, selected: seq<SeatKey>): Cell {
    SeatCell(SeatKey(rowLabel, c + 1), StatusOf(IsBooked(booked, rowLabel, c + 1), IsSelected(selected, rowLabel, c + 1)))
  }

  /** The first `n` columns of a row, the spacer placed before column index `floor(cols / 2)`. */
  function Columns(rowLabel: Option<string>, n: nat, cols: nat, booked: seq<BookedEntry>, selected: seq<SeatKey>): seq<Cell>
  {
    if n == 0 then []
    else
      Columns(rowLabel, n - 1, cols, booked, selected)
      + (if n - 1 == cols / 2 then [Aisle] else [])
      + [SeatAt(rowLabel, n - 1, booked, selected)]
  }

  /** One row of the grid. */
  function RowCells(rowLabel: Option<string>, cols: nat, booked: seq<BookedEntry>, selected: seq<SeatKey>): seq<Cell> {
    Columns(rowLabel, cols, cols, booked, selected)
  }

  /** The shape of the first `n` columns, for `n <= cols`. */
  lemma {:induction false} ColumnsShape(rowLabel: Option<string>, n: nat, cols: nat, booked: seq<BookedEntry>, selected: seq<SeatKey>)
    requires n <= cols
    ensures var cells := Columns(rowLabel, n, cols, booked, selected);
            var gap := cols / 2 < n;
            && |cells| == n + (if gap then 1 else 0)
            && (forall k :: 0 <= k < |cells| ==>
                  (cells[k] == Aisle <==> gap && k == cols / 2))
            && (forall k :: 0 <= k < |cells| && !(gap && k == cols / 2) ==>
                  cells[k] == SeatAt(rowLabel, if gap && k > cols / 2 then k - 1 else k, booked, selected))
  {
    if n > 0 {
      ColumnsShape(rowLabel, n - 1, cols, booked, selected);
    }
  }

  /**
   * With at least one column a row has `cols + 1` cells: exactly one aisle,
   * at position `floor(cols / 2)`, and the seats numbered 1..cols in order
   * around it, each with its status; with no column the row is empty.
   */
  lemma RowLayout(rowLabel: Option<string>, cols: nat, booked: seq<BookedEntry>, selected: seq<SeatKey>)
    ensures cols == 0 ==> RowCells(rowLabel, cols, booked, selected) == []
    ensures cols >= 1 ==>
              var cells := RowCells(rowLabel, cols, booked, selected);
              && |cells| == cols + 1
              && cells[cols / 2] == Aisle
              && (forall k :: 0 <= k < |cells| && k != cols / 2 ==> cells[k] != Aisle)
              && (forall k :: 0 <= k < |cells| && k != cols / 2 ==>
                    cells[k] == SeatCell(SeatKey(rowLabel, if k < cols / 2 then k + 1 else k),
                                         StatusOf(IsBooked(booked, rowLabel, if k < cols / 2 then k + 1 else k),
                                                  IsSelected(selected, rowLabel, if k < cols / 2 then k + 1 else k))))
  {
    ColumnsShape(rowLabel, cols, cols, booked, selected);
  }

  /** The whole map: row `r` has label `RowLabel(r)`. */
  function Grid(rows: nat, cols: nat, booked: seq<BookedEntry>, selected: seq<SeatKey>): (g: seq<seq<Cell>>)
    ensures |g| == rows
    ensures forall r :: 0 <= r < rows ==> g[r] == RowCells(RowLabel(r), cols, booked, selected)
  {
    seq(rows, r requires 0 <= r < rows => RowCells(RowLabel(r), cols, booked, selected))
  }

  // ------------------------------------------------------------------- Seat

  /** The `disabled` attribute of a seat's button. */
  predicate Disabled(status: SeatStatus) {
    status == Booked
  }

  /** A click: `onSelect(row, number)` is called with the seat, unless it is booked. */
  function Click(status: SeatStatus, key: SeatKey): (r: Option<SeatKey>)
    ensures r.Some? <==> !Disabled(status)
    ensures r.Some? ==> r.value == key
  {
    if status != Booked then Some(key) else None
  }

  /** The text on a seat: a cross when booked, its number otherwise. */
  function Display(status: SeatStatus, number: nat): (r: string)
    ensures status == Booked ==> r == "×"
    ensures status != Booked ==> r == NatToString(number) && ParseInt(r) == Some(number as int)
  {
    if status == Booked then "×"
    else
      ParseIntNatToString(number);
      NatToString(number)
  }
}
