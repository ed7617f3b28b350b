/** A text file on disk, seen as the sequence of lines it holds. */
module Files {

  /**
   * One file of JSON lines.  `lines` holds one entry per line of text; what
   * a line says is kept in decoded form (the element type T), because
   * `json.dumps` writes one line per object and `json.loads` reads it back.
   */
  class TextFile<T> {
    var present: bool
    var lines: seq<T>

    constructor (present: bool, lines: seq<T>)
      ensures this.present == present && this.lines == lines
    {
      this.present := present;
      this.lines := lines;
    }

    /** What a reader finds: the lines of the file, or nothing when the path does not exist. */
    function Contents(): (r: seq<T>)
      reads this
      ensures present ==> r == lines
      ensures !present ==> r == []
    {
      if present then lines else []
    }

    /** `path.open("w")`: creates the file, or empties it when it is there. */
    method Truncate()
      modifies this
      ensures present && lines == []
    {
      present := true;
      lines := [];
    }

    /** `f.write(line)` on a file open for writing. */
    method Append(x: T)
      requires present
      modifies this
      ensures present && lines == old(lines) + [x]
    {
      lines := lines + [x];
    }
  }
}
