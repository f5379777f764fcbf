/** The stand-alone helper of the site's library: image paths of a folder from
    a list of file names. */
module ImageLoader {
  import opened FileNames
  import opened Sorting

  /** `getImagesFromFolder(folderPath, fileList)`: keep the image names, put
      `folderPath + "/"` in front of each and sort the resulting paths. */
  function GetImagesFromFolder(folderPath: string, fileList: seq<string>): (r: seq<string>)
    ensures Sorted(r)
    ensures multiset(r) == multiset(Prefixed(folderPath + "/", FilterImages(fileList)))
    ensures |r| == |FilterImages(fileList)|
  {
    var paths := Prefixed(folderPath + "/", FilterImages(fileList));
    assert |multiset(Sort(paths))| == |multiset(paths)|;
    Sort(paths)
  }

  /** A path `folderPath/f` is returned exactly when `f` is an image name of the
      input: `B.PNG` always is, `a.txt` never. */
  lemma {:induction false} ListedIff(folderPath: string, fileList: seq<string>, f: string)
    ensures folderPath + "/" + f in GetImagesFromFolder(folderPath, fileList)
        <==> f in fileList && IsImageFile(f)
  {
    var p := folderPath + "/";
    var r := GetImagesFromFolder(folderPath, fileList);
    assert folderPath + "/" + f == p + f;
    assert p + f in r <==> p + f in multiset(r);
    InPrefixed(p, FilterImages(fileList), f);
    FilterImagesMembers(fileList, f);
  }

  /** Every returned path is `folderPath/f` for an image name `f` of the input. */
  lemma {:induction false} EveryPathIsAnImage(folderPath: string, fileList: seq<string>, y: string)
    requires y in GetImagesFromFolder(folderPath, fileList)
    ensures exists f :: f in fileList && IsImageFile(f) && y == folderPath + "/" + f
  {
    var p := folderPath + "/";
    var kept := FilterImages(fileList);
    assert y in multiset(Prefixed(p, kept));
    var i :| 0 <= i < |kept| && Prefixed(p, kept)[i] == y;
    FilterImagesMembers(fileList, kept[i]);
    assert y == folderPath + "/" + kept[i];
  }

  lemma EmptyInput(folderPath: string)
    ensures GetImagesFromFolder(folderPath, []) == []
  {
  }
}
