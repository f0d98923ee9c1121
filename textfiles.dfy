/** A text file seen as its whole content, changed in place by the writers. */
module TextFiles {

  class TextFile {
    var content: string

    constructor (initial: string)
      ensures content == initial
    {
      content := initial;
    }

    /** Opening with mode 'w' empties the file. */
    method Truncate()
      modifies this
      ensures content == ""
    {
      content := "";
    }

    /** `file.write(s)` on a file opened with mode 'w' or 'a': `s` goes at the end. */
    method Write(s: string)
      modifies this
      ensures content == old(content) + s
    {
      content := content + s;
    }
  }
}
