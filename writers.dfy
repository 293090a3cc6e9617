/** The `java.io.Writer` that generated source text is appended to. */
module Writers {

  class Writer {
    /** Everything appended so far. */
    var text: string

    constructor ()
      ensures text == ""
    {
      text := "";
    }

    method Append(s: string)
      modifies this
      ensures text == old(text) + s
    {
      text := text + s;
    }
  }
}
