/** The session state of the Unit Converter app: the list of past
    conversions, the flag that shows or hides them, and the operations the
    buttons perform on them. */
module History {
  import Conversion

  /** One completed conversion: the input value and unit, and the result and
      unit it was converted to. */
  datatype Entry = Entry(value: real, fromUnit: string, result: real, toUnit: string)

  /** One line of the rendered history: its 1-based position and its entry. */
  datatype Row = Row(index: nat, entry: Entry)

  /** How many of the most recent entries the history view shows. */
  const ShownEntries: nat := 5

  function Min(a: nat, b: nat): nat
  {
    if a < b then a else b
  }

  /** The last `n` entries of `h`, or all of `h` when it is shorter
      (Python's `h[-n:]` for n > 0). */
  function LastN(h: seq<Entry>, n: nat): (r: seq<Entry>)
    ensures |r| == Min(n, |h|)
    ensures r == h[|h| - |r|..]
  {
    if |h| <= n then h else h[|h| - n..]
  }

  /** `s[::-1]`. */
  function Reversed(s: seq<Entry>): (r: seq<Entry>)
    ensures |r| == |s|
  {
    if s == [] then [] else Reversed(s[1..]) + [s[0]]
  }

  lemma {:induction false} ReversedAt(s: seq<Entry>, k: nat)
    requires k < |s|
    ensures Reversed(s)[k] == s[|s| - 1 - k]
  {
    if k < |s| - 1 {
      ReversedAt(s[1..], k);
    }
  }

  /** `enumerate(s, start)`: each entry paired with its position, counting
      from `start`. */
  function Numbered(s: seq<Entry>, start: nat): (r: seq<Row>)
    ensures |r| == |s|
  {
    if s == [] then [] else [Row(start, s[0])] + Numbered(s[1..], start + 1)
  }

  lemma {:induction false} NumberedAt(s: seq<Entry>, start: nat, k: nat)
    requires k < |s|
    ensures Numbered(s, start)[k] == Row(start + k, s[k])
  {
    if k > 0 {
      NumberedAt(s[1..], start + 1, k - 1);
    }
  }

  /** The rows the history view renders: `enumerate(h[-5:][::-1], 1)`. */
  function View(h: seq<Entry>): seq<Row>
  {
    Numbered(Reversed(LastN(h, ShownEntries)), 1)
  }

  /** The view holds the min(5, |h|) newest entries, newest first: row i
      (counting from 0) is numbered i + 1 and holds h[|h| - 1 - i]. */
  lemma {:induction false} ViewShape(h: seq<Entry>)
    ensures |View(h)| == Min(ShownEntries, |h|)
    ensures forall i :: 0 <= i < |View(h)| ==> View(h)[i] == Row(i + 1, h[|h| - 1 - i])
  {
    forall i | 0 <= i < |View(h)|
      ensures View(h)[i] == Row(i + 1, h[|h| - 1 - i])
    {
      ViewAt(h, i);
    }
  }

  lemma {:induction false} ViewAt(h: seq<Entry>, i: nat)
    requires i < Min(ShownEntries, |h|)
    ensures |View(h)| == Min(ShownEntries, |h|)
    ensures View(h)[i] == Row(i + 1, h[|h| - 1 - i])
  {
    var recent := LastN(h, ShownEntries);
    var newestFirst := Reversed(recent);
    NumberedAt(newestFirst, 1, i);
    ReversedAt(recent, i);
    assert recent[|recent| - 1 - i] == h[|h| - 1 - i];
  }

  /** An empty history shows no rows. */
  lemma ViewEmpty()
    ensures View([]) == []
  {
  }

  /** After one more entry the view starts with it, numbered 1; the entries
      shown before move down one place, and the oldest of five drops out. */
  lemma {:induction false} ViewAfterAppend(h: seq<Entry>, e: Entry)
    ensures |View(h + [e])| == Min(ShownEntries, |h| + 1)
    ensures View(h + [e])[0] == Row(1, e)
    ensures forall i :: 0 <= i < Min(ShownEntries - 1, |h|) ==>
              View(h + [e])[i + 1] == Row(i + 2, View(h)[i].entry)
  {
    ViewShape(h + [e]);
    forall i | 0 <= i < Min(ShownEntries - 1, |h|)
      ensures View(h + [e])[i + 1] == Row(i + 2, View(h)[i].entry)
    {
      ViewShiftAt(h, e, i);
    }
  }

  lemma {:induction false} ViewShiftAt(h: seq<Entry>, e: Entry, i: nat)
    requires i < Min(ShownEntries - 1, |h|)
    ensures i + 1 < |View(h + [e])| && i < |View(h)|
    ensures View(h + [e])[i + 1] == Row(i + 2, View(h)[i].entry)
  {
    var h' := h + [e];
    ViewShape(h);
    ViewShape(h');
    assert View(h')[i + 1] == Row(i + 2, h'[|h'| - 1 - (i + 1)]);
    assert View(h)[i] == Row(i + 1, h[|h| - 1 - i]);
    assert h'[|h'| - 1 - (i + 1)] == h[|h| - 1 - i];
  }

  /** With six entries the view numbers the last five from newest to oldest
      and leaves out the first. */
  lemma {:induction false} ViewOfSix(h: seq<Entry>)
    requires |h| == 6
    ensures View(h) == [Row(1, h[5]), Row(2, h[4]), Row(3, h[3]), Row(4, h[2]), Row(5, h[1])]
  {
    ViewShape(h);
  }

  /** The state one interactive session keeps between button presses. */
  class Session {
    var history: seq<Entry>
    var showHistory: bool

    /** A new session: no history, history hidden. */
    constructor ()
      ensures history == [] && !showHistory
    {
      history := [];
      showHistory := false;
    }

    /** The Convert button: converts in the selected category and, when the
        conversion succeeds, appends its entry to the end of the history. A
        failed lookup stops before anything is recorded. */
    method Convert(c: Conversion.Category, value: real, from: string, to: string)
      returns (r: Conversion.Result<real, Conversion.ConvertError>)
      requires value >= 0.0
      modifies this
      ensures r == Conversion.Convert(c, value, from, to)
      ensures r.Success? ==> r.value >= 0.0
      ensures r.Success? ==> history == old(history) + [Entry(value, from, r.value, to)]
      ensures r.Failure? ==> history == old(history)
      ensures showHistory == old(showHistory)
    {
      r := Conversion.Convert(c, value, from, to);
      if r.Success? {
        Conversion.ConvertMonotone(c, value, value, from, to);
        history := history + [Entry(value, from, r.value, to)];
      }
    }

    /** The Show History button: flips whether the history is shown. */
    method ToggleHistory()
      modifies this
      ensures showHistory == !old(showHistory)
      ensures history == old(history)
    {
      showHistory := !showHistory;
    }

    /** The Clear History button, present only while the history is shown:
        empties the history, whatever it held. */
    method ClearHistory()
      requires showHistory
      modifies this
      ensures history == []
      ensures showHistory == old(showHistory)
    {
      history := [];
    }

    /** The rows rendered under "Conversion History": the view of the history
        while it is shown, nothing otherwise. */
    method Shown() returns (rows: seq<Row>)
      ensures showHistory ==> rows == View(history)
      ensures !showHistory ==> rows == []
    {
      rows := [];
      if showHistory {
        var recent := LastN(history, ShownEntries);
        var i := 0;
        while i < |recent|
          invariant 0 <= i <= |recent|
          invariant |rows| == i
          invariant forall k :: 0 <= k < i ==> rows[k] == Row(k + 1, recent[|recent| - 1 - k])
        {
          rows := rows + [Row(i + 1, recent[|recent| - 1 - i])];
          i := i + 1;
        }
        ViewShape(history);
        forall k | 0 <= k < i
          ensures rows[k] == View(history)[k]
        {
          assert recent[|recent| - 1 - k] == history[|history| - 1 - k];
        }
      }
    }
  }

  /** Pressing Show History twice leaves the session as it was. */
  method ToggleTwice(s: Session)
    modifies s
    ensures s.showHistory == old(s.showHistory)
    ensures s.history == old(s.history)
  {
    s.ToggleHistory();
    s.ToggleHistory();
  }

  /** After Clear History the history is empty, so the next render of the
      history view shows no rows. */
  method ClearThenShow(s: Session) returns (rows: seq<Row>)
    requires s.showHistory
    modifies s
    ensures s.history == [] && rows == []
  {
    s.ClearHistory();
    rows := s.Shown();
    ViewEmpty();
  }

  /** A conversion between offered units of a category with factors is
      recorded and shown first, numbered 1. */
  method ConvertThenShow(s: Session, c: Conversion.Category, value: real, from: string, to: string)
    returns (r: Conversion.Result<real, Conversion.ConvertError>, rows: seq<Row>)
    requires value >= 0.0 && s.showHistory
    requires c != Conversion.Temperature
    requires from in Conversion.UnitOptions(c) && to in Conversion.UnitOptions(c)
    modifies s
    ensures r == Conversion.Convert(c, value, from, to) && r.Success?
    ensures rows != [] && rows[0] == Row(1, Entry(value, from, r.value, to))
  {
    Conversion.OfferedConversionSucceeds(c, value, from, to);
    r := s.Convert(c, value, from, to);
    rows := s.Shown();
    ViewAfterAppend(old(s.history), Entry(value, from, r.value, to));
  }
}
