/**
 * Concrete directory listings run through the filter of main.go's
 * getImages: which entries are listed and what the JSON field then is.
 */
module ListingExamples {
  import opened GoLib
  import opened Backend

  /** Upper-case "A.JPG" and lower-case "a.jpg" both are listed. */
  lemma UpperAndLowerJpgListed()
    ensures IsImageEntry(DirEntry("A.JPG", false)) && IsImageEntry(DirEntry("a.jpg", false))
  {
    ExtFromLastDot("a.jpg", 1);
    assert ToLower("a.jpg") == "a.jpg";
    ExtensionTestIgnoresCase("A.JPG", "a.jpg", false);
  }

  /** The extension of "a.G\u0130F" is ".G\u0130F", from its only dot. */
  lemma DottedCapitalIExtension()
    ensures Ext("a.G\U{130}F") == ".G\U{130}F"
  {
    ExtFromLastDot("a.G\U{130}F", 1);
  }

  /** Lower-casing ".G\u0130F" gives ".gif": U+0130 becomes 'i'. */
  lemma DottedCapitalILowerCase()
    ensures ToLower(".G\U{130}F") == ".gif"
  {
    var l := ToLower(".G\U{130}F");
    assert l[0] == LowerChar('.') == '.';
    assert l[1] == LowerChar('G') == 'g';
    assert l[2] == LowerChar('\U{130}') == 'i';
    assert l[3] == LowerChar('F') == 'f';
  }

  /**
   * A name whose extension lower-cases to ".gif" through U+0130, capital I
   * with dot above, is listed.
   */
  lemma DottedCapitalIGifListed()
    ensures IsImageEntry(DirEntry("a.G\U{130}F", false))
  {
    DottedCapitalIExtension();
    DottedCapitalILowerCase();
    assert IsImageExtension(".gif");
  }

  /** The extension of "a.txt" is ".txt". */
  lemma TextFileExtension()
    ensures Ext("a.txt") == ".txt"
  {
    ExtFromLastDot("a.txt", 1);
  }

  /** ".txt" is already lower case. */
  lemma TextExtensionLowerCase()
    ensures ToLower(".txt") == ".txt"
  {
    LowerCaseWord(".txt");
  }

  /** ".txt" is none of the six image extensions. */
  lemma TextExtensionIsNoImage()
    ensures !IsImageExtension(".txt")
  {
  }

  /** Neither a text file nor a directory named like an image is an image file. */
  lemma TextFileAndDirectoryAreNoImages()
    ensures !IsImageEntry(DirEntry("a.txt", false)) && !IsImageEntry(DirEntry("old.jpg", true))
  {
    TextFileExtension();
    TextExtensionLowerCase();
    TextExtensionIsNoImage();
  }

  /** A directory holding no image file answers `"images": null`, not an empty array. */
  lemma NoImagesAnswersNull()
    ensures ImagesJsonAsWritten(FilterImages([DirEntry("a.txt", false), DirEntry("old.jpg", true)])) == JsonNull
  {
    var files := [DirEntry("a.txt", false), DirEntry("old.jpg", true)];
    TextFileAndDirectoryAreNoImages();
    AsWrittenDiffersExactlyWhenNoImage(files);
  }
}
