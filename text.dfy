/** A growable character buffer, as the rendering code appends to it. */
module Text {

  class StringBuilder {
    var text: string

    constructor ()
      ensures text == ""
    {
      text := "";
    }

    /** Appends `s` at the end of the buffer and returns nothing else. */
    method Append(s: string)
      modifies this
      ensures text == old(text) + s
    {
      text := text + s;
    }
  }
}
