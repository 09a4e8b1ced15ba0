/** One line of an xyz configuration file after it has been split into
    fields, and Python's rule for indexing a list or an array. */
module ConfigLines {
  import opened Outcomes

  /** A split line: how many fields it had, the integer its first field
      denotes and the reals its next three denote. A field the line lacks
      is never read: reading it is an `IndexError`. */
  datatype Line = Line(width: nat, first: int, x: real, y: real, z: real)

  /** The row a Python index `i` names in a sequence of length `n`:
      `0 <= i < n` names row `i`, `-n <= i < 0` counts from the end, and
      anything else is an `IndexError`. */
  function PyIndex(i: int, n: nat): (r: Option<nat>)
    ensures r.Some? <==> -(n as int) <= i < n
    ensures r.Some? ==> r.value < n
    ensures r.Some? && i >= 0 ==> r.value == i
    ensures r.Some? && i < 0 ==> r.value == n + i
  {
    if 0 <= i < n then Some(i)
    else if -(n as int) <= i < 0 then Some(n + i)
    else None
  }

  /** A data line (two or more fields) with enough fields for x, y and z. */
  predicate Complete(line: Line)
  {
    line.width >= 4
  }
}
