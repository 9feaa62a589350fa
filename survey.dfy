/** The survey table as the script holds it after reading the upload, the
    caller's column choices, and the reasons the script stops. */
module Survey {
  import opened Wrappers

  /** One cell: None where pandas holds a missing value (None or NaN), otherwise
      the text Python's str() gives for the value. */
  type Cell = Option<string>

  /** A DataFrame: its column names, in order, and its rows. */
  datatype Table = Table(columns: seq<string>, rows: seq<seq<Cell>>)

  predicate Rectangular(t: Table) {
    forall r :: r in t.rows ==> |r| == |t.columns|
  }

  /** Every row has one cell per column. */
  type Frame = t: Table | Rectangular(t) witness Table([], [])

  /** The first position of `name` in `cols`. */
  function IndexOf(cols: seq<string>, name: string): (i: nat)
    requires name in cols
    ensures i < |cols| && cols[i] == name && name !in cols[..i]
  {
    if cols[0] == name then 0
    else
      var i := 1 + IndexOf(cols[1..], name);
      assert cols[..i] == [cols[0]] + cols[1..][..i - 1];
      i
  }

  /** The four column selectboxes (lines 72-75). The empty string is the blank
      first option, i.e. nothing selected. */
  datatype Selection = Selection(consent: string, enumerator: string, village: string, fielddate: string)

  /** The places where the script calls st.stop() after a message. */
  datatype Error =
    | SelectionIncomplete            // lines 77-79
    | VillageNotFound                // lines 93-95
    | MissingRequired(names: seq<string>)  // lines 96-99
    | NoValidObservations            // lines 107-109
    | NoValidDates                   // lines 139-141
}
