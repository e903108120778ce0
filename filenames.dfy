/**
 Upload file names (GenerateUniqueFilename in utils/password.go): a freshly
 generated id followed by the original name's extension, taken from its last
 '.' onward. The id (a UUID string in the source) is a parameter.
 */
module Filenames {

  /** `strings.LastIndex(s, string(c))`: the last index of `c`, or -1. */
  function LastIndex(s: string, c: char): (r: int)
    ensures -1 <= r < |s|
    ensures r >= 0 ==> s[r] == c
    ensures forall j :: r < j < |s| ==> s[j] != c
  {
    if |s| == 0 then -1
    else if s[|s| - 1] == c then |s| - 1
    else LastIndex(s[..|s| - 1], c)
  }

  /** The extension kept from `name`: from its last '.' to the end, or empty. */
  function Extension(name: string): (ext: string)
  {
    var idx := LastIndex(name, '.');
    if idx != -1 then name[idx..] else ""
  }

  function GenerateUniqueFilename(id: string, originalFilename: string): (r: string)
    ensures '.' !in originalFilename ==> r == id
    ensures '.' in originalFilename ==> r == id + originalFilename[LastIndex(originalFilename, '.')..]
    ensures |r| == if '.' in originalFilename then |id| + |originalFilename| - LastIndex(originalFilename, '.') else |id|
    ensures r[..|id|] == id
    ensures r[|id|..] == Extension(originalFilename)
  {
    var extension := Extension(originalFilename);
    assert '.' in originalFilename ==> LastIndex(originalFilename, '.') != -1;
    id + extension
  }

  /**
   The extension is a suffix of the original name; when not empty it starts
   with '.' and holds no other '.'.
   */
  lemma ExtensionShape(name: string)
    ensures var ext := Extension(name);
      && |ext| <= |name| && ext == name[|name| - |ext|..]
      && (ext != "" ==> ext[0] == '.' && forall i :: 0 < i < |ext| ==> ext[i] != '.')
  {
    var idx := LastIndex(name, '.');
    if idx != -1 {
      var ext := name[idx..];
      forall i | 0 < i < |ext|
        ensures ext[i] != '.'
      {
        assert ext[i] == name[idx + i];
      }
    }
  }

  /** A name with no '.' has no extension. */
  lemma NoDotNoExtension(name: string)
    requires '.' !in name
    ensures Extension(name) == ""
  {
  }

  /**
   The source's own cases: "a.tar.gz" keeps ".gz"; ".env", whose only dot is
   at index 0, keeps the whole name; "README" keeps nothing.
   */
  lemma ExtensionExamples()
    ensures Extension("a.tar.gz") == ".gz"
    ensures Extension(".env") == ".env"
    ensures Extension("README") == ""
  {
    assert "a.tar.gz"[..7] == "a.tar.g";
    assert "a.tar.gz"[..7][..6] == "a.tar.";
    assert LastIndex("a.tar.gz", '.') == 5;
    assert ".env"[..3] == ".en";
    assert ".env"[..3][..2] == ".e";
    assert ".env"[..3][..2][..1] == ".";
    assert LastIndex(".env", '.') == 0;
    NoDotNoExtension("README");
  }

  /**
   For an id with no '.' (a UUID string has none), the generated name has
   the same extension as the original: the extension survives renaming.
   */
  lemma {:induction false} ExtensionPreserved(id: string, originalFilename: string)
    requires '.' !in id
    ensures Extension(GenerateUniqueFilename(id, originalFilename)) == Extension(originalFilename)
  {
    var ext := Extension(originalFilename);
    var r := GenerateUniqueFilename(id, originalFilename);
    ExtensionShape(originalFilename);
    var idx := LastIndex(r, '.');
    if ext == "" {
      assert r == id;
      NoDotNoExtension(id);
    } else {
      assert r[|id|] == ext[0] == '.';
      assert idx >= |id|;
      assert idx == |id|;
      assert r[idx..] == ext;
    }
  }
}
