/** The two extension helpers of the application compared: the renderer's (`lastIndexOf`,
    dot at index 0 ignored) and the React side's (`split('.').pop()`), which the host's
    directory listing also uses. */
module ExtensionCompare {
  import opened Text
  import Renderer
  import ElectronUtils

  /** When the last dot is past the first character the two helpers agree; otherwise
      the renderer's helper gives `''` while the other gives the lower-cased text after
      the last dot (the whole name when there is no dot). */
  lemma {:induction false} ExtensionsAgreeIff(filename: string)
    ensures LastIndexOf(filename, '.') > 0 ==>
      Renderer.GetFileExtension(filename) == ElectronUtils.GetFileExtension(filename)
    ensures LastIndexOf(filename, '.') <= 0 ==> Renderer.GetFileExtension(filename) == ""
    ensures Renderer.GetFileExtension(filename) == ElectronUtils.GetFileExtension(filename) <==>
      LastIndexOf(filename, '.') > 0 || ElectronUtils.GetFileExtension(filename) == ""
  {
    var k := LastIndexOf(filename, '.');
    LastIndexOfAbsent(filename, '.');
    if k == 0 {
      assert '.' !in filename[1..] by {
        forall i | 0 <= i < |filename[1..]| ensures filename[1..][i] != '.' {
          assert filename[1..][i] == filename[i + 1];
        }
      }
    }
  }

  /** `Makefile`: no extension for the renderer, `makefile` for the other helper. */
  lemma MakefileDisagrees()
    ensures Renderer.GetFileExtension("Makefile") == ""
    ensures ElectronUtils.GetFileExtension("Makefile") == "makefile"
  {
    assert '.' !in "Makefile";
    assert ToLower("Makefile") == "makefile";
  }

  /** `.gitignore`: no extension for the renderer, `gitignore` for the other helper. */
  lemma DotfileDisagrees()
    ensures Renderer.GetFileExtension(".gitignore") == ""
    ensures ElectronUtils.GetFileExtension(".gitignore") == "gitignore"
  {
    var f := ".gitignore";
    assert f[0] == '.' && f[1..] == "gitignore";
    assert '.' !in f[1..];
    assert LastIndexOf(f, '.') == 0;
    ToLowerOfLower("gitignore");
  }

  /** `archive.tar.GZ`: both helpers give `gz`. */
  lemma DoubleExtensionAgrees()
    ensures Renderer.GetFileExtension("archive.tar.GZ") == "gz"
    ensures ElectronUtils.GetFileExtension("archive.tar.GZ") == "gz"
  {
    var f := "archive.tar.GZ";
    assert f[11] == '.' && f[12..] == "GZ" && '.' !in f[12..];
    assert ToLower("GZ") == "gz";
  }
}
