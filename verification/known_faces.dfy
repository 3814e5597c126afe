/**
 * Loading the identity store from the known-faces directory
 * (`load_known_faces`, main.py, lines 93-107): image files are kept by
 * extension, the first face found in each becomes an identity, and the name is
 * the part of the file name before the extension and the first underscore,
 * capitalised. Only ASCII case mapping is modelled.
 */
module KnownFaces {

  import opened Options
  import opened Faces
  import Config

  /** One entry of the directory listing: its file name and the faces `face_encodings` finds in it. */
  datatype DirEntry = DirEntry(filename: string, encodings: seq<Encoding>)

  predicate EndsWith(s: string, suffix: string) {
    |suffix| <= |s| && s[|s| - |suffix|..] == suffix
  }

  /** `filename.endswith((".jpg", ".png", ".jpeg"))`, case-sensitive. */
  predicate IsImageFile(f: string)
    ensures IsImageFile(f) ==> |f| >= 4 && (f[|f| - 4] == '.' || (|f| >= 5 && f[|f| - 5] == '.'))
  {
    EndsWith(f, ".jpg") || EndsWith(f, ".png") || EndsWith(f, ".jpeg")
  }

  /** `s.rfind(c)`, with None for -1. */
  function LastIndexOf(s: string, c: char): (r: Option<nat>)
    ensures r.Some? ==> r.value < |s| && s[r.value] == c && forall j :: r.value < j < |s| ==> s[j] != c
    ensures r.None? ==> c !in s
    decreases |s|
  {
    if s == [] then None
    else if s[|s| - 1] == c then Some(|s| - 1)
    else LastIndexOf(s[..|s| - 1], c)
  }

  /**
   * `os.path.splitext(f)[0]` for a bare file name: the text before the last
   * dot, unless everything before that dot is dots (a leading-dot name has no
   * extension).
   */
  function Root(f: string): (r: string)
    ensures r <= f
    ensures |r| < |f| ==> f[|r|] == '.' && '.' !in f[|r| + 1..] && exists i :: 0 <= i < |r| && f[i] != '.'
    ensures |r| == |f| ==>
      forall d :: 0 <= d < |f| && f[d] == '.' && '.' !in f[d + 1..] ==> forall i :: 0 <= i < d ==> f[i] == '.'
  {
    match LastIndexOf(f, '.')
    case None => f
    case Some(d) => if exists i :: 0 <= i < d && f[i] != '.' then f[..d] else f
  }

  /** `s.split('_')[0]`: the text before the first underscore, or all of it. */
  function FirstField(s: string): (r: string)
    ensures r <= s
    ensures '_' !in r
    ensures |r| == |s| || s[|r|] == '_'
    decreases |s|
  {
    if s == [] || s[0] == '_' then [] else [s[0]] + FirstField(s[1..])
  }

  function Upper(c: char): char {
    if 'a' <= c <= 'z' then (c as int - 32) as char else c
  }

  function Lower(c: char): char {
    if 'A' <= c <= 'Z' then (c as int + 32) as char else c
  }

  /** `str.capitalize` on ASCII text: the first character upper case, the rest lower case. */
  function Capitalize(s: string): (r: string)
    ensures |r| == |s|
    ensures |s| > 0 ==> r[0] == Upper(s[0])
    ensures forall i :: 0 < i < |s| ==> r[i] == Lower(s[i])
  {
    seq(|s|, i requires 0 <= i < |s| => if i == 0 then Upper(s[i]) else Lower(s[i]))
  }

  /** Capitalising twice changes nothing more. */
  lemma {:induction false} CapitalizeIdempotent(s: string)
    ensures Capitalize(Capitalize(s)) == Capitalize(s)
  {
    var c := Capitalize(s);
    forall i | 0 <= i < |s|
      ensures Capitalize(c)[i] == c[i]
    {
      if i == 0 {
        assert Upper(Upper(s[0])) == Upper(s[0]);
      } else {
        assert Lower(Lower(s[i])) == Lower(s[i]);
      }
    }
  }

  /** The identity name derived from a file name: never longer, free of underscores, and already capitalised. */
  function NameOf(f: string): (r: string)
    ensures |r| <= |f|
    ensures '_' !in r
    ensures Capitalize(r) == r
  {
    var field := FirstField(Root(f));
    CapitalizeIdempotent(field);
    assert forall i :: 0 <= i < |field| ==> Capitalize(field)[i] != '_';
    Capitalize(field)
  }

  /** The identity an entry contributes: the first face of an image file, if any. */
  function EntryIdentities(e: DirEntry): (r: seq<Identity>)
    ensures |r| <= 1
  {
    if IsImageFile(e.filename) && e.encodings != [] then [Identity(NameOf(e.filename), e.encodings[0])]
    else []
  }

  /** The store `load_known_faces` builds from a directory listing, in listing order. */
  function LoadKnownFaces(dir: seq<DirEntry>): (store: seq<Identity>)
    ensures |store| <= |dir|
    decreases |dir|
  {
    if dir == [] then [] else EntryIdentities(dir[0]) + LoadKnownFaces(dir[1..])
  }

  /**
   * The store holds exactly the identities of the image files that show a
   * face: each identity comes from such a file, named after it with its first
   * face, and every such file contributes one.
   */
  lemma {:induction false} LoadKnownFacesContents(dir: seq<DirEntry>)
    ensures forall id :: id in LoadKnownFaces(dir) ==>
      exists e :: e in dir && IsImageFile(e.filename) && e.encodings != [] && id == Identity(NameOf(e.filename), e.encodings[0])
    ensures forall e :: e in dir && IsImageFile(e.filename) && e.encodings != [] ==>
      Identity(NameOf(e.filename), e.encodings[0]) in LoadKnownFaces(dir)
    decreases |dir|
  {
    if dir != [] {
      LoadKnownFacesContents(dir[1..]);
      assert forall e :: e in dir[1..] ==> e in dir;
      assert forall e :: e in dir ==> e == dir[0] || e in dir[1..];
    }
  }

  /** Loading a listing split in two loads each part and concatenates. */
  lemma {:induction false} LoadKnownFacesAppend(a: seq<DirEntry>, b: seq<DirEntry>)
    ensures LoadKnownFaces(a + b) == LoadKnownFaces(a) + LoadKnownFaces(b)
    decreases |a|
  {
    if a != [] {
      assert (a + b)[1..] == a[1..] + b;
      LoadKnownFacesAppend(a[1..], b);
    } else {
      assert a + b == b;
    }
  }

  /** `Misafir_<stamp>.jpg`, the file an enrolled guest is saved under. */
  function GuestFileName(stamp: string): string {
    Config.GuestName + "_" + stamp + ".jpg"
  }

  lemma {:induction false} FirstFieldBeforeUnderscore(x: string, rest: string)
    requires '_' !in x
    ensures FirstField(x + "_" + rest) == x
    decreases |x|
  {
    if x != [] {
      assert (x + "_" + rest)[1..] == x[1..] + "_" + rest;
      FirstFieldBeforeUnderscore(x[1..], rest);
    }
  }

  /** Whatever the timestamp, a saved guest file is an image file named after the guest. */
  lemma {:induction false} GuestFileNameNamesGuest(stamp: string)
    ensures IsImageFile(GuestFileName(stamp))
    ensures NameOf(GuestFileName(stamp)) == Config.GuestName
  {
    var p := Config.GuestName + "_" + stamp;
    var f := GuestFileName(stamp);
    assert f == p + ".jpg";
    assert f[|f| - 4..] == ".jpg";
    assert f[..|f| - 1] == p + ".jp";
    assert (p + ".jp")[..|p| + 2] == p + ".j";
    assert (p + ".j")[..|p| + 1] == p + ".";
    assert LastIndexOf(p + ".", '.') == Some(|p|);
    assert LastIndexOf(p + ".j", '.') == LastIndexOf(p + ".", '.');
    assert LastIndexOf(p + ".jp", '.') == LastIndexOf(p + ".j", '.');
    assert LastIndexOf(f, '.') == LastIndexOf(p + ".jp", '.');
    assert f[0] == 'M';
    assert f[..|p|] == p;
    assert Root(f) == p;
    FirstFieldBeforeUnderscore(Config.GuestName, stamp);
    var g := Capitalize(Config.GuestName);
    forall i | 0 <= i < |Config.GuestName|
      ensures g[i] == Config.GuestName[i]
    {
    }
  }

  /**
   * Saving a guest image and reloading the directory appends the guest's
   * identity to the store when a face is found in the saved crop, and leaves
   * the store as it was otherwise.
   */
  lemma {:induction false} ReloadAfterSave(dir: seq<DirEntry>, stamp: string, encs: seq<Encoding>)
    ensures LoadKnownFaces(dir + [DirEntry(GuestFileName(stamp), encs)]) ==
            LoadKnownFaces(dir) + (if encs == [] then [] else [Identity(Config.GuestName, encs[0])])
  {
    var e := DirEntry(GuestFileName(stamp), encs);
    LoadKnownFacesAppend(dir, [e]);
    GuestFileNameNamesGuest(stamp);
    assert LoadKnownFaces([e]) == EntryIdentities(e) + LoadKnownFaces([]);
  }

}
