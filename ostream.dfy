/** The text accumulators of the streamer generator (ostream_t in
    streamer_generator.c) and the files they are flushed to. */
module Streams {
  import opened Text

  /** An output file: everything written to it so far. */
  class Sink {
    var text: string

    constructor ()
      ensures text == []
    {
      text := [];
    }

    /** `fprintf(f, "%s", s)` */
    method Write(s: string)
      modifies this
      ensures text == old(text) + s
    {
      text := text + s;
    }
  }

  /** The prefix append_ostream writes before the text: two blanks per level
      of the depth it reads at call time, or nothing. */
  function Indentation(indent: bool, depth: nat): (s: string)
    ensures |s| == if indent then 2 * depth else 0
  {
    if indent then Spaces(2 * depth) else ""
  }

  /** A growable text buffer. An empty buffer stands for both the NULL buffer
      and an allocated empty one: flushing either writes nothing. */
  class OStream {
    var buffer: string

    /** create_ostream */
    constructor ()
      ensures buffer == []
    {
      buffer := [];
    }

    /** append_ostream: the old content, then the indentation, then the text. */
    method Append(toAppend: string, indent: bool, depth: nat)
      modifies this
      ensures indent ==> buffer == old(buffer) + Indentation(true, depth) + toAppend
      ensures !indent ==> buffer == old(buffer) + toAppend
    {
      buffer := buffer + Indentation(indent, depth) + toAppend;
    }

    /** The four appends the generator uses for a commented line: the text
        (indented at `depth`), the comment tag, the member name and a line
        break, the last three unindented. */
    method AppendTagged(text: string, tag: string, member: string, depth: nat)
      modifies this
      ensures buffer == old(buffer) + Indentation(true, depth) + text + tag + member + "\n"
    {
      Append(text, true, depth);
      Append(tag, false, depth);
      Append(member, false, depth);
      Append("\n", false, depth);
    }

    /** The same four appends with the text unindented, for text that
        continues a line. */
    method AppendNote(text: string, tag: string, member: string, depth: nat)
      modifies this
      ensures buffer == old(buffer) + text + tag + member + "\n"
    {
      Append(text, false, depth);
      Append(tag, false, depth);
      Append(member, false, depth);
      Append("\n", false, depth);
    }

    /** A declaration line: the signature and `;` followed by a blank line. */
    method AppendDeclaration(signature: string, depth: nat)
      modifies this
      ensures buffer == old(buffer) + Indentation(true, depth) + signature + ";\n\n"
    {
      Append(signature, true, depth);
      Append(";\n\n", false, depth);
    }

    /** A procedure head: the signature on its own line, then the opening
        brace. */
    method AppendOpening(signature: string, depth: nat)
      modifies this
      ensures buffer == old(buffer) + Indentation(true, depth) + signature + "\n"
                        + Indentation(true, depth) + "{\n"
    {
      Append(signature, true, depth);
      Append("\n", false, depth);
      Append("{\n", true, depth);
    }

    /** A procedure tail: the return statement, then the closing brace and
        a blank line. */
    method AppendClosing(returnLine: string, depth: nat)
      modifies this
      ensures buffer == old(buffer) + Indentation(true, depth) + returnLine
                        + Indentation(true, depth) + "}\n\n"
    {
      Append(returnLine, true, depth);
      Append("}\n\n", true, depth);
    }

    /** clear_ostream */
    method Clear()
      modifies this
      ensures buffer == []
    {
      buffer := [];
    }

    /** flush_ostream: an empty buffer writes nothing; otherwise the whole
        content goes to the file and the buffer is emptied. */
    method Flush(f: Sink)
      modifies this, f
      ensures old(buffer) == [] ==> f.text == old(f.text)
      ensures f.text == old(f.text) + old(buffer)
      ensures buffer == []
    {
      if buffer != [] {
        f.Write(buffer);
        Clear();
      }
    }
  }
}
