/** Where an uploaded photo is stored: a namespace, a fresh random token and
    the extension of the picked file's name. */
module StoragePath {

  /** `name.split(".").pop()`: the text after the last '.', or the whole
      name when it has no '.'. */
  function Extension(name: string): (r: string)
    ensures '.' !in r && |r| <= |name|
  {
    if name == [] then []
    else if name[|name| - 1] == '.' then []
    else Extension(name[..|name| - 1]) + [name[|name| - 1]]
  }

  /** The extension is the tail of the name, and when it is not the whole
      name a '.' stands right before it. */
  lemma {:induction false} ExtensionIsLastPart(name: string)
    ensures var r := Extension(name);
      && name[|name| - |r|..] == r
      && (|r| < |name| ==> name[|name| - |r| - 1] == '.')
  {
    if name != [] && name[|name| - 1] != '.' {
      var init := name[..|name| - 1];
      ExtensionIsLastPart(init);
      assert name == init + [name[|name| - 1]];
    }
  }

  /** The path AlbumAdmin uploads to: "albums/<album id>/<token>.<ext>". */
  function AlbumPhotoPath(albumId: string, token: string, ext: string): (r: string)
    ensures "albums/" + albumId + "/" <= r
  {
    "albums/" + albumId + "/" + token + "." + ext
  }

  /** The path the legacy Admin page uploads to: "memorias/<token>.<ext>". */
  function LegacyPhotoPath(token: string, ext: string): (r: string)
    ensures "memorias/" <= r
  {
    "memorias/" + token + "." + ext
  }

  /** A suffix without '.' after a '.' is what split(".").pop() returns. */
  lemma {:induction false} ExtensionAfterDot(p: string, e: string)
    requires '.' !in e
    ensures Extension(p + "." + e) == e
  {
    var s := p + "." + e;
    if e == [] {
      assert s[|s| - 1] == '.';
    } else {
      var init := e[..|e| - 1];
      assert s[..|s| - 1] == p + "." + init;
      assert s[|s| - 1] == e[|e| - 1];
      ExtensionAfterDot(p, init);
      assert e == init + [e[|e| - 1]];
    }
  }

  /** The stored path keeps the extension of the file name it came from. */
  lemma AlbumPathKeepsExtension(albumId: string, token: string, name: string)
    ensures Extension(AlbumPhotoPath(albumId, token, Extension(name))) == Extension(name)
  {
    ExtensionAfterDot("albums/" + albumId + "/" + token, Extension(name));
  }

  lemma LegacyPathKeepsExtension(token: string, name: string)
    ensures Extension(LegacyPhotoPath(token, Extension(name))) == Extension(name)
  {
    ExtensionAfterDot("memorias/" + token, Extension(name));
  }

  /** Within one album, a path determines its token and its extension:
      distinct tokens never share a path. */
  lemma AlbumPathInjective(albumId: string, t1: string, e1: string, t2: string, e2: string)
    requires '.' !in e1 && '.' !in e2
    requires AlbumPhotoPath(albumId, t1, e1) == AlbumPhotoPath(albumId, t2, e2)
    ensures t1 == t2 && e1 == e2
  {
    var pre := "albums/" + albumId + "/";
    ExtensionAfterDot(pre + t1, e1);
    ExtensionAfterDot(pre + t2, e2);
    var p := AlbumPhotoPath(albumId, t1, e1);
    assert p == pre + t1 + "." + e1 == pre + t2 + "." + e2;
    assert t1 == p[|pre|..|p| - |e1| - 1];
    assert t2 == p[|pre|..|p| - |e2| - 1];
  }

  /** The same for the legacy namespace. */
  lemma LegacyPathInjective(t1: string, e1: string, t2: string, e2: string)
    requires '.' !in e1 && '.' !in e2
    requires LegacyPhotoPath(t1, e1) == LegacyPhotoPath(t2, e2)
    ensures t1 == t2 && e1 == e2
  {
    ExtensionAfterDot("memorias/" + t1, e1);
    ExtensionAfterDot("memorias/" + t2, e2);
    var p := LegacyPhotoPath(t1, e1);
    assert t1 == p[9..|p| - |e1| - 1];
    assert t2 == p[9..|p| - |e2| - 1];
  }
}
