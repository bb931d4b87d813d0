/**
 * Which directory entries `main` turns into input files, and the loop that
 * builds `image_files` from a directory listing.
 */
module Candidates {
  import opened Naming

  /** The suffixes of input files `main` accepts (case-sensitive). */
  const InputExtensions: set<string> := {".png", ".jpg", ".jpeg"}

  /** The suffix test of `main`, nested as the source nests it. */
  predicate IsCandidate(filename: string)
  {
    if |filename| > 4 then
      var ext := filename[|filename| - 4..];
      ext == ".png" || ext == ".jpg" || (|filename| > 5 && filename[|filename| - 5..] == ".jpeg")
    else
      false
  }

  /** The accepted entries of a listing, in listing order. */
  function CandidateNames(names: seq<string>): seq<string>
  {
    if names == [] then []
    else if IsCandidate(names[|names| - 1]) then CandidateNames(names[..|names| - 1]) + [names[|names| - 1]]
    else CandidateNames(names[..|names| - 1])
  }

  /**
   * An entry is accepted exactly when it is a non-empty stem followed by one of
   * the three image extensions: a bare `.png`, `.jpg` or `.jpeg` is refused.
   */
  lemma CandidateIffStemAndExtension(filename: string)
    ensures IsCandidate(filename) <==>
      exists stem, ext :: ext in InputExtensions && stem != [] && filename == stem + ext
  {
    if IsCandidate(filename) {
      CandidateHasStem(filename);
    }
    if exists stem, ext :: ext in InputExtensions && stem != [] && filename == stem + ext {
      var stem, ext :| ext in InputExtensions && stem != [] && filename == stem + ext;
      StemAndExtensionIsCandidate(stem, ext);
    }
  }

  /** The three input extensions are extension-shaped and hold no separator. */
  lemma InputExtensionShape(ext: string)
    requires ext in InputExtensions
    ensures IsExtensionShaped(ext) && SeparatorFree(ext)
  {
    assert ".png"[1..] == "png" && ".jpg"[1..] == "jpg" && ".jpeg"[1..] == "jpeg";
  }

  lemma CandidateHasStem(filename: string)
    requires IsCandidate(filename)
    ensures exists stem, ext :: ext in InputExtensions && stem != [] && filename == stem + ext
  {
    var n := |filename|;
    var ext := if filename[n - 4..] == ".png" || filename[n - 4..] == ".jpg" then filename[n - 4..] else filename[n - 5..];
    assert ext in InputExtensions;
    var stem := filename[..n - |ext|];
    assert filename == stem + ext;
  }

  lemma StemAndExtensionIsCandidate(stem: string, ext: string)
    requires ext in InputExtensions && stem != []
    ensures IsCandidate(stem + ext)
  {
    var filename := stem + ext;
    var n := |filename|;
    assert filename[n - |ext|..] == ext;
  }

  /** The Windows build skips `.` and `..` explicitly; the suffix test refuses them anyway. */
  lemma DotEntriesAreNotCandidates()
    ensures !IsCandidate(".") && !IsCandidate("..")
    ensures !IsCandidate(".png") && !IsCandidate(".jpg") && !IsCandidate(".jpeg")
  {
  }

  /** Filtering a listing commutes with splitting it: the order of entries is kept. */
  lemma {:induction false} CandidatesAppend(a: seq<string>, b: seq<string>)
    ensures CandidateNames(a + b) == CandidateNames(a) + CandidateNames(b)
  {
    if b == [] {
      assert a + b == a;
    } else {
      var b' := b[..|b| - 1];
      assert (a + b)[..|a + b| - 1] == a + b';
      CandidatesAppend(a, b');
    }
  }

  /** An entry is a candidate exactly when it is in the listing and passes the suffix test. */
  lemma {:induction false} CandidatesMembership(names: seq<string>, x: string)
    ensures x in CandidateNames(names) <==> x in names && IsCandidate(x)
  {
    if names != [] {
      var prefix := names[..|names| - 1];
      CandidatesMembership(prefix, x);
      assert names == prefix + [names[|names| - 1]];
    }
  }

  /**
   * The loop of `main` that fills `image_files`: every accepted entry, in
   * listing order, prefixed by the input directory and the platform separator.
   */
  method CollectImageFiles(platform: Platform, inputDir: string, names: seq<string>) returns (files: seq<string>)
    ensures |files| == |CandidateNames(names)|
    ensures forall k :: 0 <= k < |files| ==> files[k] == JoinPath(platform, inputDir, CandidateNames(names)[k])
  {
    files := [];
    for i := 0 to |names|
      invariant |files| == |CandidateNames(names[..i])|
      invariant forall k :: 0 <= k < |files| ==> files[k] == JoinPath(platform, inputDir, CandidateNames(names[..i])[k])
    {
      var filename := names[i];
      assert names[..i + 1][..i] == names[..i];
      if platform.Windows? && (filename == "." || filename == "..") {
        DotEntriesAreNotCandidates();
        continue;
      }
      if |filename| > 4 {
        var ext := filename[|filename| - 4..];
        if ext == ".png" || ext == ".jpg" {
          files := files + [JoinPath(platform, inputDir, filename)];
        } else if |filename| > 5 && filename[|filename| - 5..] == ".jpeg" {
          files := files + [JoinPath(platform, inputDir, filename)];
        }
      }
    }
    assert names[..|names|] == names;
  }
}
