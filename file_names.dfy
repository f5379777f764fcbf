/** The image-extension allow-list shared by the listing endpoint and the image
    loader: a name is kept when it ends in `.` followed by one of the extensions,
    letters compared without regard to case. */
module FileNames {
  import opened Strings

  const Extensions: seq<string> := ["jpg", "jpeg", "png", "gif", "webp"]

  /** The test `/\.(jpg|jpeg|png|gif|webp)$/i` applied to a file name. */
  predicate IsImageFile(name: string) {
    exists e :: e in Extensions && EndsWithIgnoringCase(name, "." + e)
  }

  /** Case does not matter: names that agree up to case are both kept or both dropped. */
  lemma IsImageFileIgnoresCase(s: string, t: string)
    requires Lower(s) == Lower(t)
    ensures IsImageFile(s) == IsImageFile(t)
  {
    forall e | e in Extensions
      ensures EndsWithIgnoringCase(s, "." + e) == EndsWithIgnoringCase(t, "." + e)
    {
      EndsWithIgnoresCase(s, t, "." + e);
    }
  }

  /** Any stem followed by `.` and an allowed extension in any mix of case is kept. */
  lemma ExtensionInAnyCaseMatches(stem: string, ext: string)
    requires Lower(ext) in Extensions
    ensures IsImageFile(stem + "." + ext)
  {
    var name := stem + "." + ext;
    var e := Lower(ext);
    assert name[|name| - |"." + e|..] == "." + ext;
    assert Lower("." + ext) == "." + e;
    assert EndsWithIgnoringCase(name, "." + e);
  }

  /** A kept name contains a dot, so a bare `jpg` is never kept. */
  lemma ImageFileHasDot(name: string)
    requires IsImageFile(name)
    ensures '.' in name
  {
    var e :| e in Extensions && EndsWithIgnoringCase(name, "." + e);
    EndsWithAt(name, "." + e, 0);
    assert name[|name| - |"." + e|] == '.';
  }

  lemma UpperCaseExtensionKept()
    ensures IsImageFile("B.PNG")
  {
    assert Lower("PNG") == Extensions[2];
    ExtensionInAnyCaseMatches("B", "PNG");
    assert "B" + "." + "PNG" == "B.PNG";
  }

  lemma OtherExtensionDropped()
    ensures !IsImageFile("a.txt")
  {
    forall e | e in Extensions ensures !EndsWithIgnoringCase("a.txt", "." + e) {
      if EndsWithIgnoringCase("a.txt", "." + e) {
        EndsWithAt("a.txt", "." + e, |e|);
      }
    }
  }

  lemma BareExtensionDropped()
    ensures !IsImageFile("jpg")
  {
    if IsImageFile("jpg") {
      ImageFileHasDot("jpg");
    }
  }

  /** `Array.prototype.filter(IsImageFile)`. */
  function FilterImages(names: seq<string>): (r: seq<string>)
    ensures forall x :: multiset(r)[x] == if IsImageFile(x) then multiset(names)[x] else 0
  {
    if names == [] then []
    else
      assert names == [names[0]] + names[1..];
      (if IsImageFile(names[0]) then [names[0]] else []) + FilterImages(names[1..])
  }

  /** Membership form of the filter's contract. */
  lemma FilterImagesMembers(names: seq<string>, x: string)
    ensures x in FilterImages(names) <==> x in names && IsImageFile(x)
  {
    assert x in FilterImages(names) <==> multiset(FilterImages(names))[x] > 0;
    assert x in names <==> multiset(names)[x] > 0;
  }
}
