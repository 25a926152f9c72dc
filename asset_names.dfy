/**
 * The updater's classification of release-asset filenames into a platform and an
 * architecture, by markers on the lowercased name.
 */
module AssetNames {
  import opened Text

  predicate WindowsName(lower: string) {
    Contains(lower, "windows") || Contains(lower, ".exe") || Contains(lower, ".msi")
  }

  predicate DarwinName(lower: string) {
    Contains(lower, "macos") || Contains(lower, "darwin") || Contains(lower, ".dmg")
  }

  predicate LinuxName(lower: string) {
    Contains(lower, "linux") || Contains(lower, ".appimage") || Contains(lower, ".deb")
  }

  predicate X64Name(lower: string) {
    Contains(lower, "x64") || Contains(lower, "x86_64") || Contains(lower, "amd64")
  }

  predicate ArmName(lower: string) {
    Contains(lower, "arm64") || Contains(lower, "aarch64")
  }

  predicate X86Name(lower: string) {
    Contains(lower, "x86") || Contains(lower, "i386")
  }

  /**
   * The arch markers in their fixed order: 64-bit x86 first (so "x86_64" is never
   * read as 32-bit "x86"), then arm, then 32-bit x86; no marker defaults to x86_64.
   */
  function ArchOf(lower: string): (r: string)
    ensures r in {"x86_64", "aarch64", "i686"}
    ensures r == "aarch64" <==> !X64Name(lower) && ArmName(lower)
    ensures r == "i686" <==> !X64Name(lower) && !ArmName(lower) && X86Name(lower)
    ensures r == "x86_64" <==> X64Name(lower) || (!ArmName(lower) && !X86Name(lower))
    ensures Contains(lower, "x86_64") ==> r == "x86_64"
  {
    if X64Name(lower) then "x86_64"
    else if ArmName(lower) then "aarch64"
    else if X86Name(lower) then "i686"
    else "x86_64"
  }

  /**
   * `parse_platform_from_filename`: windows before darwin before linux on the lowercased
   * name, ("", "") when no platform marker occurs.
   */
  function ParsePlatformFromFilename(filename: string): (r: (string, string))
    ensures r.0 == "" <==> r.1 == ""
    ensures r.0 in {"", "windows", "darwin", "linux"}
  {
    var lower := ToLower(filename);
    var platform :=
      if WindowsName(lower) then "windows"
      else if DarwinName(lower) then "darwin"
      else if LinuxName(lower) then "linux"
      else "";
    if platform == "" then ("", "") else (platform, ArchOf(lower))
  }

  /** The platform follows the precedence of the markers; the arch is classified independently. */
  lemma ParsePlatformPrecedence(filename: string)
    ensures var r, lower := ParsePlatformFromFilename(filename), ToLower(filename);
      && (r.0 == "windows" <==> WindowsName(lower))
      && (r.0 == "darwin" <==> !WindowsName(lower) && DarwinName(lower))
      && (r.0 == "linux" <==> !WindowsName(lower) && !DarwinName(lower) && LinuxName(lower))
      && (r.0 != "" ==> r.1 == ArchOf(lower))
  {
  }

  lemma ParsePlatformIgnoresCase(filename: string)
    ensures ParsePlatformFromFilename(ToLower(filename)) == ParsePlatformFromFilename(filename)
  {
    ToLowerIdempotent(filename);
  }

  lemma ContainsWitness(haystack: string, needle: string, i: nat)
    requires i + |needle| <= |haystack| && haystack[i..i + |needle|] == needle
    ensures Contains(haystack, needle)
  {
    assert needle <= haystack[i..];
    ContainsFrom(haystack, needle, i);
  }

  lemma WindowsAssetLowercase(w: string)
    requires w == "app-1.0.0-windows-x64.exe"
    ensures forall i :: 0 <= i < |w| ==> !('A' <= w[i] <= 'Z')
  {
  }

  lemma WindowsAssetSlices(w: string)
    requires w == "app-1.0.0-windows-x64.exe"
    ensures |w| >= 21 && w[10..17] == "windows" && w[18..21] == "x64"
  {
  }

  /** First classification test: a Windows x64 installer. */
  lemma WindowsFilenameExample()
    ensures ParsePlatformFromFilename("app-1.0.0-windows-x64.exe") == ("windows", "x86_64")
  {
    var w := "app-1.0.0-windows-x64.exe";
    WindowsAssetLowercase(w);
    ToLowerOfLower(w);
    WindowsAssetSlices(w);
    ContainsWitness(w, "windows", 10);
    ContainsWitness(w, "x64", 18);
    ParsePlatformPrecedence(w);
  }

  /** A name classified by the markers it does and does not hold. */
  lemma ClassifiedAs(f: string, platform: string, arch: string)
    requires platform in {"windows", "darwin", "linux"}
    requires platform == "windows" <==> WindowsName(ToLower(f))
    requires platform == "darwin" <==> !WindowsName(ToLower(f)) && DarwinName(ToLower(f))
    requires platform == "linux" ==> !WindowsName(ToLower(f)) && !DarwinName(ToLower(f)) && LinuxName(ToLower(f))
    requires arch == ArchOf(ToLower(f))
    ensures ParsePlatformFromFilename(f) == (platform, arch)
  {
    ParsePlatformPrecedence(f);
  }

  lemma MacAssetLetters(m: string)
    requires m == "app-1.0.0-macos-arm64.dmg"
    ensures forall i :: 0 <= i < |m| ==> m[i] != 'w' && m[i] != 'x' && m[i] != 'i' && !('A' <= m[i] <= 'Z')
    ensures 'w' !in m && 'x' !in m && 'i' !in m
  {
  }

  lemma MacAssetSlices(m: string)
    requires m == "app-1.0.0-macos-arm64.dmg"
    ensures |m| >= 21 && m[10..15] == "macos" && m[16..21] == "arm64"
  {
  }

  lemma NotWindowsName(lower: string)
    requires 'w' !in lower && 'x' !in lower && 'i' !in lower
    ensures !WindowsName(lower)
  {
    ContainsChar(lower, "windows", 'w');
    ContainsChar(lower, ".exe", 'x');
    ContainsChar(lower, ".msi", 'i');
  }

  lemma Arm64Arch(lower: string)
    requires 'x' !in lower && !Contains(lower, "amd64")
    requires |lower| >= 21 && lower[16..21] == "arm64"
    ensures ArchOf(lower) == "aarch64"
  {
    ContainsChar(lower, "x64", 'x');
    ContainsChar(lower, "x86_64", 'x');
    ContainsWitness(lower, "arm64", 16);
  }

  lemma MacAssetMarkers(m: string)
    requires m == "app-1.0.0-macos-arm64.dmg"
    ensures !WindowsName(m) && DarwinName(m) && ArchOf(m) == "aarch64"
  {
    MacAssetLetters(m);
    MacAssetSlices(m);
    assert m == "app-1.0.0-macos" + ['-'] + ("arm64" + ['.'] + "dmg");
    NotContainsAcrossTwo("app-1.0.0-macos", '-', "arm64", '.', "dmg", "amd64", 'd', 'd', 'a');
    NotWindowsName(m);
    ContainsWitness(m, "macos", 10);
    Arm64Arch(m);
  }

  /** Second classification test: "macos" means darwin, and "arm64" means aarch64. */
  lemma MacFilenameExample()
    ensures ParsePlatformFromFilename("app-1.0.0-macos-arm64.dmg") == ("darwin", "aarch64")
  {
    var m := "app-1.0.0-macos-arm64.dmg";
    MacAssetLetters(m);
    ToLowerOfLower(m);
    MacAssetMarkers(m);
    ClassifiedAs("app-1.0.0-macos-arm64.dmg", "darwin", "aarch64");
  }

  lemma LinuxAssetLetters(l: string)
    requires l == "app-1.0.0-linux-x86_64.appimage"
    ensures forall i :: 0 <= i < |l| ==> l[i] != 'w' && l[i] != 's' && l[i] != 'c' && l[i] != 'd'
    ensures 'w' !in l && 's' !in l && 'c' !in l && 'd' !in l
  {
  }

  lemma LinuxAssetSlices(l: string)
    requires l == "app-1.0.0-linux-x86_64.appimage"
    ensures |l| >= 22 && l[10..15] == "linux" && l[16..22] == "x86_64"
  {
    assert l[10..15] == "linux";
    assert l[16..22] == "x86_64";
  }

  lemma LinuxAssetNotWindows(l: string)
    requires 'w' !in l && 's' !in l && !Contains(l, ".exe")
    ensures !WindowsName(l)
  {
    ContainsChar(l, "windows", 'w');
    ContainsChar(l, ".msi", 's');
  }

  lemma LinuxAssetNotDarwin(l: string)
    requires 'w' !in l && 'c' !in l && 'd' !in l
    ensures !DarwinName(l)
  {
    ContainsChar(l, "macos", 'c');
    ContainsChar(l, "darwin", 'w');
    ContainsChar(l, ".dmg", 'd');
  }

  lemma LinuxAssetMarkers(l: string)
    requires l == "app-1.0.0-linux-x86_64.appimage"
    ensures !WindowsName(l) && !DarwinName(l) && LinuxName(l)
    ensures ArchOf(l) == "x86_64"
  {
    LinuxAssetLetters(l);
    LinuxAssetSlices(l);
    assert l == "app-1.0.0-linux" + ['-'] + ("x86" + ['_'] + "64.appimage");
    NotContainsAcrossTwo("app-1.0.0-linux", '-', "x86", '_', "64.appimage", ".exe", 'e', 'e', 'x');
    LinuxAssetNotWindows(l);
    LinuxAssetNotDarwin(l);
    ContainsWitness(l, "linux", 10);
    ContainsWitness(l, "x86_64", 16);
  }

  lemma LinuxAssetLowered(f: string)
    requires f == "app-1.0.0-linux-x86_64.AppImage"
    ensures ToLower(f) == "app-1.0.0-linux-x86_64.appimage"
  {
    var stem, suffix := "app-1.0.0-linux-x86_64.", "AppImage";
    assert f == stem + suffix;
    ToLowerAppend(stem, suffix);
    ToLowerOfLower(stem);
    assert ToLower(suffix) == "appimage";
  }

  /** Third classification test: the upper-case ".AppImage" suffix still classifies as linux. */
  lemma LinuxFilenameExample()
    ensures ParsePlatformFromFilename("app-1.0.0-linux-x86_64.AppImage") == ("linux", "x86_64")
  {
    LinuxAssetLowered("app-1.0.0-linux-x86_64.AppImage");
    LinuxAssetMarkers("app-1.0.0-linux-x86_64.appimage");
    ClassifiedAs("app-1.0.0-linux-x86_64.AppImage", "linux", "x86_64");
  }
}
