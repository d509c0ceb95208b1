/** `Writer`, the output sink of both scripts, reduced to what the engine relies
    on: `println` appends a line to the stream, `close` ends the stream unless it
    is the process's standard output. Stream creation and the symlink check are
    filesystem work outside this model. */
module Output {
  import opened Values
  import opened Records

  /** What `println(s)` writes for a single string argument. */
  function Line(s: string): string
  {
    s + "\n"
  }

  /** The chunks a stretch of the script wrote, and the error that ended it, if any. */
  datatype Run = Run(chunks: seq<string>, failure: Option<Failure>)

  class Writer {
    /** The stream is `process.stdout` exactly when no truthy output path was given. */
    const toStdout: bool
    /** The chunks written to the stream so far, in order. */
    var written: seq<string>
    /** Whether `end()` was called on the stream. */
    var ended: bool

    constructor (outFile: Option<string>)
      ensures toStdout == (outFile == None || outFile.value == "")
      ensures written == [] && !ended
    {
      toStdout := outFile == None || outFile.value == "";
      written := [];
      ended := false;
    }

    /** `println(s)`: the string and a newline, appended. */
    method Println(s: string)
      modifies this`written
      ensures written == old(written) + [Line(s)]
    {
      written := written + [Line(s)];
    }

    /** `close()`: ends a file stream; calling end() on stdout would throw, so
        that case is skipped. */
    method Close()
      modifies this`ended
      ensures ended == (old(ended) || !toStdout)
    {
      if !toStdout {
        ended := true;
      }
    }
  }

  /** Writing `h` and then `b` after `start` leaves `start` followed by `h + b`:
      the step that joins the output of consecutive stretches of a script. Stated
      on its own because, inside the methods that write long literal lines, the
      same step is expensive to prove. */
  lemma WrittenInTurn(start: seq<string>, h: seq<string>, b: seq<string>)
    ensures (start + h) + b == start + (h + b)
  {
  }
}
