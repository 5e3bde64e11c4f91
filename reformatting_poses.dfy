/**
 * `reFormattingPoses.py`: cleaning up saved pose files. The JSON parser is a
 * parameter; the re-indented text it is written back as is not modelled.
 */
module ReformattingPoses {
  import opened Wrappers
  import Text

  /**
   * Python's `content[1:-1]` after the quote test: one quote off each end; a
   * lone quote (which both starts and ends the text) leaves nothing.
   */
  function Unquote(content: string): (r: string)
    ensures Text.StartsWith(content, "'") && Text.EndsWith(content, "'") ==>
      |r| == if |content| >= 2 then |content| - 2 else 0
    ensures Text.StartsWith(content, "'") && Text.EndsWith(content, "'") && |content| >= 2 ==>
      content == "'" + r + "'"
    ensures !(Text.StartsWith(content, "'") && Text.EndsWith(content, "'")) ==> r == content
  {
    if Text.StartsWith(content, "'") && Text.EndsWith(content, "'") then
      if |content| >= 2 then content[1..|content| - 1] else ""
    else content
  }

  /** `t` is the piece of `s` that starts at index `i`. */
  predicate PieceAt(t: string, s: string, i: int) {
    0 <= i <= |s| - |t| && t == s[i..i + |t|]
  }

  /** Unquoting a piece of `s` leaves a piece of `s`. */
  lemma PieceOfPiece(t: string, s: string, k: int)
    requires PieceAt(t, s, k)
    ensures exists i :: PieceAt(Unquote(t), s, i)
  {
    var r := Unquote(t);
    if r == t {
      assert PieceAt(r, s, k);
    } else if |t| >= 2 {
      assert r == t[1..|t| - 1];
      assert |r| == |t| - 2;
      var u, v := s[k + 1..k + 1 + |r|], t[1..|t| - 1];
      assert forall j :: 0 <= j < |u| ==> u[j] == v[j];
      assert PieceAt(r, s, k + 1);
    } else {
      assert r == [];
      assert PieceAt(r, s, 0);
    }
  }

  /** The text handed to the JSON parser: stripped, then unquoted; a contiguous piece of the raw text. */
  function Cleaned(raw: string): (r: string)
    ensures |r| <= |raw|
    ensures exists i :: PieceAt(r, raw, i)
  {
    var t := Text.Strip(raw);
    var k :| Text.Surrounded(raw, t, k);
    PieceOfPiece(t, raw, k);
    Unquote(t)
  }

  /**
   * `reformat_json_file`: the value written back, or `None` when the cleaned
   * text does not parse and the file is left untouched.
   */
  function Reformat<J>(raw: string, parse: string -> Option<J>): (written: Option<J>)
    ensures written.Some? <==> parse(Cleaned(raw)).Some?
  {
    parse(Cleaned(raw))
  }

  /**
   * What reaches the parser: for any text made of whitespace, a trimmed
   * core and more whitespace, the core itself with one layer of single
   * quotes removed when it starts and ends with one, and nothing else.
   */
  lemma CleanedText(a: string, core: string, b: string)
    requires Text.AllSpace(a) && Text.AllSpace(b) && Text.Trimmed(core)
    ensures Cleaned(a + core + b) == Unquote(core)
    ensures |core| >= 2 && core[0] == '\'' && core[|core| - 1] == '\'' ==>
      Cleaned(a + core + b) == core[1..|core| - 1]
    ensures !(core != [] && core[0] == '\'' && core[|core| - 1] == '\'') ==> Cleaned(a + core + b) == core
  {
    Text.StripIsCore(a, core, b);
    assert Cleaned(a + core + b) == Unquote(core);
    UnquoteCases(core);
  }

  /** The quote test of `Unquote` reads the first and the last character. */
  lemma UnquoteCases(core: string)
    ensures |core| >= 2 && core[0] == '\'' && core[|core| - 1] == '\'' ==> Unquote(core) == core[1..|core| - 1]
    ensures !(core != [] && core[0] == '\'' && core[|core| - 1] == '\'') ==> Unquote(core) == core
  {
    if core != [] {
      assert Text.StartsWith(core, "'") <==> core[0] == '\'' by { assert core[..1] == [core[0]]; }
      assert Text.EndsWith(core, "'") <==> core[|core| - 1] == '\'' by {
        assert core[|core| - 1..] == [core[|core| - 1]];
      }
    }
  }

  /** A file is written back exactly when that cleaned core parses, with the parsed value. */
  lemma ReformatWritesParsedCore<J>(a: string, core: string, b: string, parse: string -> Option<J>)
    requires Text.AllSpace(a) && Text.AllSpace(b) && Text.Trimmed(core)
    ensures Reformat(a + core + b, parse) == parse(Unquote(core))
  {
    CleanedText(a, core, b);
  }

  /** Unquoting unwraps one layer only: a doubly quoted text keeps its inner quotes. */
  lemma UnquoteOneLayer(inner: string)
    ensures Unquote("''" + inner + "''") == "'" + inner + "'"
  {
    var c := "''" + inner + "''";
    assert c[..1] == "'";
    assert c[|c| - 1..] == "'";
    assert c[1..|c| - 1] == "'" + inner + "'";
  }

  /** The file filter of `process_directory`. */
  function JsonFiles(files: seq<string>): (r: seq<string>)
    ensures forall f :: f in r <==> f in files && Text.EndsWith(f, ".json")
    ensures |r| <= |files|
    decreases |files|
  {
    if files == [] then []
    else if Text.EndsWith(files[0], ".json") then [files[0]] + JsonFiles(files[1..])
    else JsonFiles(files[1..])
  }
}
