/**
 * A location's photo list: uploaded photo URLs are pushed onto it in order
 * (`PUT /items/:id`), and `DELETE /items/:id/photo` removes the first occurrence of a URL
 * after asking the image host to destroy the image named by the URL's public id.
 *
 * Uploading is a parameter `upload` (None when the upload throws), destroying a parameter
 * `destroy` (false when the call throws); the public id passed to it is reported.
 */
module Photos {
  import opened Wrappers
  import opened Http
  import Strings

  /**
   * The public id of an uploaded image: the last '/'-separated segment of its URL, cut at
   * its first '.'.
   */
  function PublicId(url: string): string
  {
    Strings.Split(Strings.Last(Strings.Split(url, '/')), '.')[0]
  }

  /** `s` with its first occurrence of `x` removed; `s` itself when `x` does not occur. */
  function RemoveFirst(s: seq<string>, x: string): seq<string>
  {
    if s == [] then []
    else if s[0] == x then s[1..]
    else [s[0]] + RemoveFirst(s[1..], x)
  }

  /**
   * The URLs of uploading every file, in order, or None when some upload fails.
   */
  function UploadAll(files: seq<string>, upload: string -> Option<string>): (urls: Option<seq<string>>)
    ensures urls.Some? <==> forall k :: 0 <= k < |files| ==> upload(files[k]).Some?
    ensures urls.Some? ==>
              |urls.value| == |files| &&
              forall k :: 0 <= k < |files| ==> urls.value[k] == upload(files[k]).value
  {
    if files == [] then Some([])
    else
      var init := files[..|files| - 1];
      match UploadAll(init, upload)
      case None => None
      case Some(urls) =>
        match upload(files[|files| - 1])
        case None => None
        case Some(u) => Some(urls + [u])
  }

  /** `Array.prototype.indexOf`: the first position of `x` in `s`, or -1. */
  method IndexOf(s: seq<string>, x: string) returns (i: int)
    ensures i == -1 <==> x !in s
    ensures i != -1 ==> 0 <= i < |s| && s[i] == x && x !in s[..i]
  {
    i := 0;
    while i < |s|
      invariant 0 <= i <= |s|
      invariant x !in s[..i]
    {
      if s[i] == x {
        return;
      }
      assert s[..i + 1] == s[..i] + [s[i]];
      i := i + 1;
    }
    assert s[..i] == s;
    i := -1;
  }

  /** The public id is one path segment with no extension: it holds neither '/' nor '.'. */
  lemma PublicIdIsPlain(url: string)
    ensures '/' !in PublicId(url) && '.' !in PublicId(url)
  {
    var segment := Strings.Last(Strings.Split(url, '/'));
    var pieces := Strings.Split(segment, '.');
    assert '/' !in segment;
    assert Strings.Join(pieces, '.') == segment;
    JoinHasFirst(pieces, '.');
    assert forall k :: 0 <= k < |pieces[0]| ==> pieces[0][k] in segment;
  }

  lemma {:induction false} JoinHasFirst(pieces: seq<string>, c: char)
    requires |pieces| > 0
    ensures Strings.Join(pieces, c)[..|pieces[0]|] == pieces[0]
  {
    if |pieces| > 1 {
      assert Strings.Join(pieces, c) == pieces[0] + ([c] + Strings.Join(pieces[1..], c));
    }
  }

  /**
   * The public id is what the URL holds after its last '/' and before the next '.':
   * `url == prefix + id + rest`, where `prefix` is empty or ends in '/' and `rest` is
   * empty or starts with '.' and holds no '/'.
   */
  lemma {:induction false} PublicIdLocated(url: string)
    ensures exists i :: 0 <= i <= |url| - |PublicId(url)| &&
              url[i..i + |PublicId(url)|] == PublicId(url) &&
              (i == 0 || url[i - 1] == '/') &&
              '/' !in url[i..] &&
              (i + |PublicId(url)| == |url| || url[i + |PublicId(url)|] == '.')
  {
    var parts := Strings.Split(url, '/');
    var segment := Strings.Last(parts);
    var pieces := Strings.Split(segment, '.');
    var id := pieces[0];
    JoinLast(parts, '/');
    var i := |url| - |segment|;
    assert url[i..] == segment;
    JoinHasFirst(pieces, '.');
    JoinAfterFirst(pieces, '.');
    assert url[i..i + |id|] == id;
  }

  lemma {:induction false} JoinLast(pieces: seq<string>, c: char)
    requires |pieces| > 0
    ensures var j := Strings.Join(pieces, c);
            var last := pieces[|pieces| - 1];
            |last| <= |j| && j[|j| - |last|..] == last &&
            (|last| == |j| || j[|j| - |last| - 1] == c)
    decreases |pieces|
  {
    if |pieces| > 1 {
      JoinLast(pieces[1..], c);
      assert Strings.Join(pieces, c) == (pieces[0] + [c]) + Strings.Join(pieces[1..], c);
    }
  }

  lemma {:induction false} JoinAfterFirst(pieces: seq<string>, c: char)
    requires |pieces| > 0
    ensures var j := Strings.Join(pieces, c);
            |pieces[0]| <= |j| && (|pieces[0]| == |j| || j[|pieces[0]|] == c)
  {
    if |pieces| > 1 {
      assert Strings.Join(pieces, c) == pieces[0] + ([c] + Strings.Join(pieces[1..], c));
    }
  }

  /** Removing the first occurrence at position `i` is cutting out `s[i]`: the rest keeps its order. */
  lemma {:induction false} RemoveFirstAt(s: seq<string>, x: string, i: nat)
    requires i < |s| && s[i] == x && x !in s[..i]
    ensures RemoveFirst(s, x) == s[..i] + s[i + 1..]
    decreases i
  {
    if i > 0 {
      assert s[0] in s[..i];
      assert s[1..][..i - 1] == s[1..i];
      RemoveFirstAt(s[1..], x, i - 1);
      assert s[..i] == [s[0]] + s[1..i];
    }
  }

  /** Removing a URL that is present drops the length by one and one copy from the multiset. */
  lemma {:induction false} RemoveFirstCounts(s: seq<string>, x: string)
    requires x in s
    ensures |RemoveFirst(s, x)| == |s| - 1
    ensures multiset(RemoveFirst(s, x)) == multiset(s) - multiset{x}
    decreases |s|
  {
    if s[0] != x {
      RemoveFirstCounts(s[1..], x);
      assert s == [s[0]] + s[1..];
    } else {
      assert s == [x] + s[1..];
    }
  }

  /** Removing a URL that is absent changes nothing. */
  lemma {:induction false} RemoveFirstAbsent(s: seq<string>, x: string)
    requires x !in s
    ensures RemoveFirst(s, x) == s
    decreases |s|
  {
    if s != [] {
      RemoveFirstAbsent(s[1..], x);
    }
  }

  /** The photo list of one location document. */
  class LocationPhotos {
    var photos: seq<string>

    constructor (photos: seq<string>)
      ensures this.photos == photos
    {
      this.photos := photos;
    }

    /**
     * Uploads the files one by one and pushes each URL. The first failed upload stops the
     * loop and gives `false` (the handler then answers 500 without saving); the URLs
     * pushed before it stay on the in-memory document.
     */
    method AddPhotos(files: seq<string>, upload: string -> Option<string>) returns (ok: bool)
      modifies this
      ensures ok <==> UploadAll(files, upload).Some?
      ensures ok ==> photos == old(photos) + UploadAll(files, upload).value
      ensures !ok ==> exists j :: 0 <= j < |files| && upload(files[j]).None? &&
                        UploadAll(files[..j], upload).Some? &&
                        photos == old(photos) + UploadAll(files[..j], upload).value
      ensures |old(photos)| <= |photos| && photos[..|old(photos)|] == old(photos)
    {
      var i := 0;
      assert files[..0] == [] && photos[|old(photos)|..] == [];
      while i < |files|
        invariant 0 <= i <= |files|
        invariant |old(photos)| <= |photos| && photos[..|old(photos)|] == old(photos)
        invariant UploadAll(files[..i], upload) == Some(photos[|old(photos)|..])
      {
        assert files[..i + 1][..i] == files[..i];
        var url := upload(files[i]);
        if url.None? {
          assert UploadAll(files[..i + 1], upload).None?;
          assert !upload(files[..i + 1][i]).Some?;
          assert photos == old(photos) + photos[|old(photos)|..];
          ok := false;
          return;
        }
        ghost var pushed := photos[|old(photos)|..];
        photos := photos + [url.value];
        assert photos[|old(photos)|..] == pushed + [url.value];
        assert photos[..|old(photos)|] == old(photos);
        i := i + 1;
      }
      assert files[..i] == files;
      ok := true;
    }

    /**
     * `DELETE /items/:id/photo` on a found location: 404 and no change when the URL is not
     * in the list. Otherwise the image named by the URL's public id is destroyed first:
     * when that call throws (`destroy` gives false) the handler answers 500 and the list is
     * left as it was; when it succeeds the first occurrence of the URL is removed and 200
     * comes back with the new list. `destroyed` is the public id passed to the destroy call.
     */
    method RemovePhoto(photoUrl: string, destroy: string -> bool)
      returns (reply: Reply<seq<string>>, destroyed: Option<string>)
      modifies this
      ensures photoUrl !in old(photos) ==>
                reply == Reply(NOT_FOUND, None) && destroyed == None && photos == old(photos)
      ensures photoUrl in old(photos) ==> destroyed == Some(PublicId(photoUrl))
      ensures photoUrl in old(photos) && !destroy(PublicId(photoUrl)) ==>
                reply == Reply(SERVER_ERROR, None) && photos == old(photos)
      ensures photoUrl in old(photos) && destroy(PublicId(photoUrl)) ==>
                photos == RemoveFirst(old(photos), photoUrl) &&
                |photos| == |old(photos)| - 1 &&
                reply == Reply(OK, Some(photos))
    {
      var photoIndex := IndexOf(photos, photoUrl);
      if photoIndex == -1 {
        return Reply(NOT_FOUND, None), None;
      }
      var publicId := PublicId(photoUrl);
      destroyed := Some(publicId);
      if !destroy(publicId) {
        return Reply(SERVER_ERROR, None), destroyed;
      }
      RemoveFirstAt(photos, photoUrl, photoIndex);
      RemoveFirstCounts(photos, photoUrl);
      photos := photos[..photoIndex] + photos[photoIndex + 1..];
      reply := Reply(OK, Some(photos));
    }
  }
}
