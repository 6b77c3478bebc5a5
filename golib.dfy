/**
 * The few pieces of Go's standard library whose behaviour the command relies
 * on and which are small enough to be written out exactly: byte slices and
 * their conversion to strings, `filepath.Ext` and `json.RawMessage.MarshalJSON`.
 * A Go string is a sequence of bytes; here it is a `string` holding one
 * character per byte.
 */
module GoLib {

  newtype byte = x: int | 0 <= x < 256

  /** Go's `string(b)` for a byte slice `b`: one character per byte. */
  function BytesToString(b: seq<byte>): (s: string)
    ensures |s| == |b|
    ensures forall i :: 0 <= i < |b| ==> s[i] as int == b[i] as int
  {
    seq(|b|, i requires 0 <= i < |b| => b[i] as char)
  }

  lemma BytesToStringConcat(a: seq<byte>, b: seq<byte>)
    ensures BytesToString(a + b) == BytesToString(a) + BytesToString(b)
  {
  }

  /** The path separator `os.IsPathSeparator` accepts on Unix. */
  const Separator: char := '/'

  /**
   * `filepath.Ext`: the suffix of `path` that starts at the last '.' of its
   * final element, dot included, or "" when that element has no dot.
   * `ExtIsFinalDottedSuffix` states this in full.
   */
  function Ext(path: string): (e: string)
    ensures e == [] || e[0] == '.'
    decreases |path|
  {
    if path == [] || path[|path| - 1] == Separator then
      []
    else if path[|path| - 1] == '.' then
      ['.']
    else
      var e := Ext(path[..|path| - 1]);
      if e == [] then [] else e + [path[|path| - 1]]
  }

  /**
   * What `filepath.Ext` returns: a suffix of the path holding no separator
   * and no dot after its first character, and "" only when every dot of
   * the path is followed by a separator, that is, when the final element
   * has no dot.
   */
  lemma {:induction false} ExtIsFinalDottedSuffix(path: string)
    ensures var e := Ext(path);
            && |e| <= |path| && e == path[|path| - |e|..]
            && (forall k :: 0 <= k < |e| ==> e[k] != Separator)
            && (forall k :: 1 <= k < |e| ==> e[k] != '.')
            && (e == [] ==> forall i :: 0 <= i < |path| && path[i] == '.' ==> Separator in path[i..])
    decreases |path|
  {
    if path != [] && path[|path| - 1] != Separator && path[|path| - 1] != '.' {
      var init := path[..|path| - 1];
      ExtIsFinalDottedSuffix(init);
      var e := Ext(init);
      if e != [] {
        assert Ext(path) == e + [path[|path| - 1]];
        assert path[|path| - |e| - 1..] == init[|init| - |e|..] + [path[|path| - 1]];
      } else {
        forall i | 0 <= i < |path| && path[i] == '.'
          ensures Separator in path[i..]
        {
          assert init[i] == path[i];
          assert Separator in init[i..];
          var j :| i <= j < |init| && init[j] == Separator;
          assert path[j] == Separator;
          assert path[i..][j - i] == Separator;
        }
      }
    }
  }

  /** A path that ends in a dot and then dot-free, separator-free text has exactly that ending as its extension. */
  lemma ExtOfDottedSuffix(stem: string, ext: string)
    requires |ext| > 0 && ext[0] == '.'
    requires forall k :: 1 <= k < |ext| ==> ext[k] != '.' && ext[k] != Separator
    ensures Ext(stem + ext) == ext
  {
    ExtIsFinalDottedSuffix(stem + ext);
    assert (stem + ext)[|stem|..] == ext;
  }

  /** A `json.RawMessage`, which Go distinguishes as nil or a byte slice. */
  datatype RawMessage = NilMessage | Message(bytes: seq<byte>)

  /** `json.RawMessage.MarshalJSON`: a nil message encodes as `null`, any other as itself. */
  function MarshalJson(m: RawMessage): (b: seq<byte>)
    ensures m.Message? ==> b == m.bytes
    ensures m.NilMessage? ==> BytesToString(b) == "null"
  {
    match m
    case NilMessage => [0x6E, 0x75, 0x6C, 0x6C]
    case Message(bytes) => bytes
  }
}
