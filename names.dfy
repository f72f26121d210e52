/** The buffer name and the file type of a document (`getName` and
    `getExt`, the same in buffers/document.py and documentbuffer.py). A
    path is the list of the `name` fields from the project root down. */
module Names {
  import opened PyText

  /** `"/".join([p["name"] for p in path])`. */
  function GetName(path: seq<string>): string
  {
    Join(path, '/')
  }

  /** `name.split(".")[-1]`. */
  function GetExt(name: string): string
  {
    var parts := Split(name, '.');
    parts[|parts| - 1]
  }

  /** The path can be read back from the name when no name holds a `/`. */
  lemma NameRoundTrip(path: seq<string>)
    requires |path| >= 1 && NoSep(path, '/')
    ensures Split(GetName(path), '/') == path
  {
    SplitJoin(path, '/');
  }

  /** The extension is the part of the name after its last dot: a suffix
      with no dot in it that is the whole name or follows a dot. */
  lemma {:induction false} ExtIsLastPiece(name: string)
    ensures var e := GetExt(name);
      |e| <= |name| && e == name[|name| - |e|..] && '.' !in e &&
      (|e| == |name| || name[|name| - |e| - 1] == '.')
  {
    if name != [] {
      var rest := Split(name[1..], '.');
      var e' := GetExt(name[1..]);
      ExtIsLastPiece(name[1..]);
      assert name[1..][|name| - 1 - |e'|..] == name[|name| - |e'|..];
      if name[0] == '.' {
        assert Split(name, '.') == [""] + rest;
        assert GetExt(name) == e';
      } else if |rest| == 1 {
        SplitShape(name[1..], '.');
        NoDotNoCount(name[1..]);
        assert e' == name[1..];
        assert GetExt(name) == [name[0]] + e';
        assert [name[0]] + name[1..] == name;
      } else {
        assert Split(name, '.') == [[name[0]] + rest[0]] + rest[1..];
        assert GetExt(name) == e';
        assert |e'| < |name| - 1 by {
          SplitShape(name[1..], '.');
          NoDotNoCount(name[1..]);
        }
      }
    }
  }

  /** A string has no dot exactly when it counts none. */
  lemma {:induction false} NoDotNoCount(s: string)
    ensures Count(s, '.') == 0 <==> '.' !in s
  {
    if s != [] {
      NoDotNoCount(s[1..]);
      assert s == [s[0]] + s[1..];
    }
  }

  /** `stem.ext` has extension `ext` whenever `ext` has no dot. */
  lemma {:induction false} ExtOfDotted(stem: string, ext: string)
    requires '.' !in ext
    ensures GetExt(stem + "." + ext) == ext
  {
    var s := stem + "." + ext;
    if stem == [] {
      SplitNoSep(ext, '.');
      assert s[1..] == ext;
      assert Split(s, '.') == [""] + [ext];
    } else {
      var rest := Split(s[1..], '.');
      assert s[1..] == stem[1..] + "." + ext;
      ExtOfDotted(stem[1..], ext);
      if s[0] == '.' {
        assert Split(s, '.') == [""] + rest;
      } else {
        assert |rest| > 1 by {
          SplitShape(s[1..], '.');
          NoDotNoCount(s[1..]);
          assert s[1..][|stem| - 1] == '.';
        }
        assert Split(s, '.') == [[s[0]] + rest[0]] + rest[1..];
      }
    }
  }
}
