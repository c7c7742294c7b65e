/** Audio file recognition (src/services/filetype.service.ts): the extension
    Node's `path.extname` reports, matched against mp3, ogg, aac and wav with
    ASCII letters compared case-insensitively. */
module FileType {
  import opened Text
  import opened Paths

  /** Index of the last '.' in `s`, or -1. */
  function LastDot(s: string): (r: int)
    ensures -1 <= r < |s|
    ensures r >= 0 ==> s[r] == '.'
    ensures forall i :: r < i < |s| ==> s[i] != '.'
    decreases |s|
  {
    if s == [] then -1
    else if s[|s| - 1] == '.' then |s| - 1
    else LastDot(s[..|s| - 1])
  }

  /** `path.extname(name)`: from the last '.' of the last component to its end;
      empty when that component has no '.', when its only '.' leading one is
      its first character (a dotfile such as ".mp3"), or when it is "..". */
  function Extname(name: string): (r: string)
    ensures r != "" ==> r[0] == '.'
  {
    var base := Basename(name);
    var d := LastDot(base);
    if d < 1 || base == ".." then "" else base[d..]
  }

  /** The alternatives of the pattern: a dot, then mp3, ogg, aac or wav. */
  predicate AudioExtension(ext: string) {
    ext == ".mp3" || ext == ".ogg" || ext == ".aac" || ext == ".wav"
  }

  /** `isAudioFile(filename)`. */
  predicate IsAudioFile(name: string) {
    AudioExtension(Lower(Extname(name)))
  }

  lemma BasenameOfName(name: string)
    requires name != "" && '/' !in name
    ensures Basename(name) == name
  {
    SplitNoSep(name, '/');
  }

  lemma {:induction false} LastDotSuffix(s: string, tail: string)
    requires '.' !in tail
    ensures LastDot(s + tail) == LastDot(s)
    decreases |tail|
  {
    if tail == [] {
      assert s + tail == s;
    } else {
      var t := s + tail;
      assert t[|t| - 1] == tail[|tail| - 1];
      assert tail[|tail| - 1] in tail;
      assert t[..|t| - 1] == s + tail[..|tail| - 1];
      assert forall c :: c in tail[..|tail| - 1] ==> c in tail;
      LastDotSuffix(s, tail[..|tail| - 1]);
    }
  }

  /** The last dot of `stem + ext` is the one that starts `ext`. */
  lemma LastDotAfter(stem: string, ext: string)
    requires |ext| > 0 && ext[0] == '.' && '.' !in ext[1..]
    ensures LastDot(stem + ext) == |stem|
  {
    assert stem + ext == (stem + ".") + ext[1..];
    LastDotSuffix(stem + ".", ext[1..]);
  }

  lemma NotInConcat(c: char, a: string, b: string)
    requires c !in a && c !in b
    ensures c !in a + b
  {
  }

  /** A dot, then at least one character that is neither a dot nor a slash. */
  predicate PlainExtension(ext: string) {
    |ext| > 1 && ext[0] == '.' && forall i :: 1 <= i < |ext| ==> ext[i] != '.' && ext[i] != '/'
  }

  /** A string without capital letters is its own lower case. */
  lemma LowerNoCapitals(s: string)
    requires forall i :: 0 <= i < |s| ==> !('A' <= s[i] <= 'Z')
    ensures Lower(s) == s
  {
    var r := Lower(s);
    assert forall i :: 0 <= i < |s| ==> r[i] == s[i];
  }

  /** A dot and three lower-case letters or digits. */
  lemma ThreeLetterExtension(ext: string)
    requires |ext| == 4 && ext[0] == '.'
    requires forall i :: 1 <= i < 4 ==> 'a' <= ext[i] <= 'z' || '0' <= ext[i] <= '9'
    ensures PlainExtension(ext) && Lower(ext) == ext
  {
    LowerNoCapitals(ext);
  }

  /** Each of the four extensions is a plain extension already in lower case. */
  lemma ExtensionShape(ext: string)
    requires AudioExtension(ext)
    ensures PlainExtension(ext) && Lower(ext) == ext
  {
    if ext == ".mp3" {
      ThreeLetterExtension(ext);
    } else if ext == ".ogg" {
      ThreeLetterExtension(ext);
    } else if ext == ".aac" {
      ThreeLetterExtension(ext);
    } else {
      ThreeLetterExtension(ext);
    }
  }

  /** The extension of a plain name is what follows its last dot. */
  lemma ExtnameOfName(stem: string, ext: string)
    requires stem != "" && '/' !in stem && PlainExtension(ext)
    ensures Extname(stem + ext) == ext
  {
    var name := stem + ext;
    assert '/' !in ext && '.' !in ext[1..] by {
      forall c | c in ext ensures c != '/' { var i :| 0 <= i < |ext| && ext[i] == c; }
      forall c | c in ext[1..] ensures c != '.' { var i :| 0 <= i < |ext[1..]| && ext[1..][i] == c; assert ext[i + 1] == c; }
    }
    NotInConcat('/', stem, ext);
    BasenameOfName(name);
    LastDotAfter(stem, ext);
    assert name[|stem|..] == ext;
  }

  /** A plain name followed by one of the four extensions is an audio file. */
  lemma AudioNameAccepted(stem: string, ext: string)
    requires stem != "" && '/' !in stem
    requires AudioExtension(ext)
    ensures IsAudioFile(stem + ext)
  {
    ExtensionShape(ext);
    ExtnameOfName(stem, ext);
  }

  /** Case does not matter: a plain name followed by a dot and mp3, ogg, aac
      or wav in any mixture of upper and lower case ("SONG.MP3") is an audio
      file. */
  lemma AnyCaseAccepted(stem: string, ext: string)
    requires stem != "" && '/' !in stem
    requires AudioExtension(Lower(ext))
    ensures IsAudioFile(stem + ext)
  {
    var l := Lower(ext);
    ExtensionShape(l);
    assert PlainExtension(ext) by {
      assert LowerChar(ext[0]) == '.';
      forall i | 1 <= i < |ext| ensures ext[i] != '.' && ext[i] != '/' {
        assert LowerChar(ext[i]) == l[i];
      }
    }
    ExtnameOfName(stem, ext);
  }

  /** Only the final extension counts: appending ".bak" to any plain name gives
      a name that is not an audio file. */
  lemma BackupRejected(stem: string)
    requires '/' !in stem
    ensures !IsAudioFile(stem + ".bak")
  {
    if stem == "" {
      assert ".bak"[1..] == "bak";
      NoExtensionRejected(".bak");
      assert stem + ".bak" == ".bak";
    } else {
      ThreeLetterExtension(".bak");
      ExtnameOfName(stem, ".bak");
    }
  }

  /** A name without a dot, or a dotfile such as ".mp3", has no extension. */
  lemma NoExtensionRejected(name: string)
    requires '/' !in name
    requires '.' !in name || (name != "" && name[0] == '.' && '.' !in name[1..])
    ensures Extname(name) == "" && !IsAudioFile(name)
  {
    if name != "" {
      BasenameOfName(name);
      if '.' !in name {
        assert LastDot(name) < 0;
      } else {
        LastDotAfter("", name);
        assert "" + name == name;
      }
    }
    assert Lower("") == "";
  }

  lemma DotfileRejected()
    ensures !IsAudioFile(".mp3")
  {
    NoExtensionRejected(".mp3");
  }
}
