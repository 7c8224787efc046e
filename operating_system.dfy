/**
 * utils/OperatingSystem.kt: the host operating system, classified from the
 * value of the `os.name` system property (here a parameter).
 */
module OperatingSystems {

  import opened Strings

  datatype OperatingSystem = Unknown | Windows | Linux | MacOS

  /** `OperatingSystem.current`: the first matching prefix of the lower-cased name.
      Since no name has two of the prefixes, each result holds exactly when its own
      prefix matches, whatever the order of the tests. */
  function Current(osName: string): (os: OperatingSystem)
    ensures os == MacOS <==> "mac" <= Lowercase(osName)
    ensures os == Windows <==> "windows" <= Lowercase(osName)
    ensures os == Linux <==> "linux" <= Lowercase(osName)
    ensures os == Unknown <==>
      !("mac" <= Lowercase(osName)) && !("windows" <= Lowercase(osName)) && !("linux" <= Lowercase(osName))
  {
    var name := Lowercase(osName);
    PrefixesDisjoint(osName);
    if "mac" <= name then MacOS
    else if "windows" <= name then Windows
    else if "linux" <= name then Linux
    else Unknown
  }

  /** The three prefixes exclude one another, so the order of the tests does not matter. */
  lemma PrefixesDisjoint(osName: string)
    ensures !("mac" <= Lowercase(osName) && "windows" <= Lowercase(osName))
    ensures !("mac" <= Lowercase(osName) && "linux" <= Lowercase(osName))
    ensures !("windows" <= Lowercase(osName) && "linux" <= Lowercase(osName))
  {
    var name := Lowercase(osName);
    if |name| > 0 {
      assert "mac"[0] == 'm' && "windows"[0] == 'w' && "linux"[0] == 'l';
    }
  }

  /** Matching ignores case: the name and its lower-cased form are classified alike. */
  lemma CurrentIgnoresCase(osName: string)
    ensures Current(Lowercase(osName)) == Current(osName)
  {
    LowercaseIdempotent(osName);
  }

  /** A name only needs the right prefix, in any case: "Mac OS X" is MacOS. */
  lemma MacExample()
    ensures Current("Mac OS X") == MacOS
  {
    var name := Lowercase("Mac OS X");
    assert name[0] == 'm' && name[1] == 'a' && name[2] == 'c';
    assert name[..3] == "mac";
  }

  /** A name with none of the three prefixes is Unknown: "FreeBSD". */
  lemma UnknownExample()
    ensures Current("FreeBSD") == Unknown
  {
    var name := Lowercase("FreeBSD");
    assert name[0] == 'f';
  }
}
