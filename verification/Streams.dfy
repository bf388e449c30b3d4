/** The ends of a filter chain, and the newline conventions the filters share. */
module Streams {

  /** What a source returns when nothing is left. */
  const EOF: int := -1

  /** `boost::iostreams::get` on a finite source of characters, as codes. */
  class Source {
    var data: seq<int>

    constructor (s: seq<int>)
      ensures data == s
    {
      data := s;
    }

    method Get() returns (ch: int)
      modifies this
      ensures old(data) == [] ==> ch == EOF && data == []
      ensures old(data) != [] ==> ch == old(data)[0] && data == old(data)[1..]
    {
      if data == [] {
        ch := EOF;
      } else {
        ch := data[0];
        data := data[1..];
      }
    }
  }

  /** The same on a text. */
  class CharSource {
    var data: string

    constructor (s: string)
      ensures data == s
    {
      data := s;
    }

    method Get() returns (ch: int)
      modifies this
      ensures old(data) == "" ==> ch == EOF && data == ""
      ensures old(data) != "" ==> ch == old(data)[0] as int && data == old(data)[1..]
    {
      if data == "" {
        ch := EOF;
      } else {
        ch := data[0] as int;
        data := data[1..];
      }
    }
  }

  /** `boost::iostreams::put` on a sink that takes everything. */
  class Sink {
    var data: string

    constructor ()
      ensures data == ""
    {
      data := "";
    }

    method Put(ch: char)
      modifies this
      ensures data == old(data) + [ch]
    {
      data := data + [ch];
    }
  }

  datatype Newline = None | Cr | Ln | CrLn

  function Break(nl: Newline): string {
    match nl
    case None => ""
    case Cr => "\r"
    case Ln => "\n"
    case CrLn => "\r\n"
  }
}
