/**
 * The report rows: `'{:50.50}'.format(name) + status`, the service name
 * truncated or right-padded with spaces to exactly fifty characters, then the
 * status string with no separator.
 */
module Report {

  /** Width and precision of the name column. */
  const NameWidth: nat := 50

  function Spaces(n: nat): (r: string)
    ensures |r| == n && forall i :: 0 <= i < n ==> r[i] == ' '
  {
    if n == 0 then [] else [' '] + Spaces(n - 1)
  }

  /** The name column, `'{:50.50}'.format(name)`. */
  function Cell(name: string): string {
    if |name| >= NameWidth then name[..NameWidth] else name + Spaces(NameWidth - |name|)
  }

  /** One report row: the name column followed by the status. */
  function Row(name: string, status: string): (r: string)
    ensures |r| == NameWidth + |status|
    ensures forall i :: 0 <= i < NameWidth ==> r[i] == if i < |name| then name[i] else ' '
    ensures r[NameWidth..] == status
  {
    Cell(name) + status
  }

  /** `s` without its trailing space characters. */
  function TrimTrailingSpaces(s: string): string
    decreases |s|
  {
    if |s| > 0 && s[|s| - 1] == ' ' then TrimTrailingSpaces(s[..|s| - 1]) else s
  }

  /** Reads a row back into its name column, trailing spaces removed, and its status. */
  function ParseRow(row: string): (string, string)
    requires |row| >= NameWidth
  {
    (TrimTrailingSpaces(row[..NameWidth]), row[NameWidth..])
  }

  lemma {:induction false} TrimPadding(name: string, n: nat)
    requires name == [] || name[|name| - 1] != ' '
    ensures TrimTrailingSpaces(name + Spaces(n)) == name
    decreases n
  {
    if n > 0 {
      var padded := name + Spaces(n);
      assert padded[..|padded| - 1] == name + Spaces(n - 1);
      TrimPadding(name, n - 1);
    }
  }

  /**
   * A name that fits the column and does not end in a space is recovered
   * from its row, and so is the status.
   */
  lemma RowRoundTrip(name: string, status: string)
    requires |name| <= NameWidth
    requires name == [] || name[|name| - 1] != ' '
    ensures ParseRow(Row(name, status)) == (name, status)
  {
    var row := Row(name, status);
    assert row[..NameWidth] == name + Spaces(NameWidth - |name|);
    TrimPadding(name, NameWidth - |name|);
  }

  /** A name of fifty characters or more keeps exactly its first fifty. */
  lemma RowTruncates(name: string, status: string)
    requires |name| >= NameWidth
    ensures Row(name, status) == name[..NameWidth] + status
  {
  }
}
