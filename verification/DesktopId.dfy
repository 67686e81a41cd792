/** From the canonical path of a desktop file to the application id that the process launcher uses. */
module DesktopId {

  /** QString::replace(pattern, ""): drops every occurrence, scanning from the left. */
  function RemoveAll(s: string, pattern: string): string
    requires pattern != ""
    decreases |s|
  {
    if s == "" then ""
    else if pattern <= s then RemoveAll(s[|pattern|..], pattern)
    else [s[0]] + RemoveAll(s[1..], pattern)
  }

  function Dashes(s: string): (r: string)
    ensures |r| == |s| && '/' !in r
    ensures forall i :: 0 <= i < |s| ==> r[i] == if s[i] == '/' then '-' else s[i]
    ensures '/' !in s ==> r == s
  {
    if s == "" then "" else [if s[0] == '/' then '-' else s[0]] + Dashes(s[1..])
  }

  /** Position of the last '/', or -1. */
  function LastSlash(s: string): (i: int)
    ensures -1 <= i < |s| && (i >= 0 ==> s[i] == '/') && forall j :: i < j < |s| ==> s[j] != '/'
  {
    if s == "" then -1
    else if s[|s| - 1] == '/' then |s| - 1
    else LastSlash(s[..|s| - 1])
  }

  /** QFileInfo::canonicalPath from the canonical file path; a missing file has the path "" in directory ".". */
  function DirOf(path: string): (dir: string)
    ensures dir != ""
  {
    var i := LastSlash(path);
    if i < 0 then "." else if i == 0 then "/" else path[..i]
  }

  predicate EndsAt(s: string, n: nat) {
    8 <= n <= |s| && s[n - 7..n] == "desktop" && s[n - 8] != '\n'
  }

  /** Replacing the regular expression ".desktop$" by nothing: any character but a newline, then "desktop", at
      the end or before a final newline. */
  function StripSuffix(s: string): string {
    if EndsAt(s, |s|) then s[..|s| - 8]
    else if s != "" && s[|s| - 1] == '\n' && EndsAt(s, |s| - 1) then s[..|s| - 9] + "\n"
    else s
  }

  function DropSlash(s: string): string {
    if s != "" && s[0] == '/' then s[1..] else s
  }

  function IdOf(path: string): string {
    StripSuffix(Dashes(DropSlash(RemoveAll(path, DirOf(path)))))
  }

  /** ProcessLauncher::id on the canonical file path. */
  method Id(path: string) returns (id: string)
    ensures id == IdOf(path)
    ensures '/' !in id
  {
    id := path;
    id := RemoveAll(id, DirOf(path));
    if id != "" && id[0] == '/' {
      id := id[1..];
    }
    id := Dashes(id);
    id := StripSuffix(id);
    IdHasNoSlash(path);
  }

  /** For every path the id contains no '/'. */
  lemma IdHasNoSlash(path: string)
    ensures '/' !in IdOf(path)
  {
  }

  lemma {:induction false} NothingToRemove(s: string, pattern: string)
    requires pattern != "" && pattern[0] !in s
    ensures RemoveAll(s, pattern) == s
    decreases |s|
  {
    if s == "" {
    } else {
      assert s[0] in s;
      assert s == [s[0]] + s[1..];
      NothingToRemove(s[1..], pattern);
    }
  }

  /** A canonical directory: the root, or an absolute path that does not end in '/'. */
  predicate IsDir(dir: string) {
    dir == "/" || (|dir| > 1 && dir[0] == '/' && dir[|dir| - 1] != '/')
  }

  function PathIn(dir: string, name: string): string {
    if dir == "/" then "/" + name else dir + ("/" + name)
  }

  predicate IsBase(base: string) {
    '/' !in base && '\n' !in base
  }

  lemma DirOfPathIn(dir: string, name: string)
    requires IsDir(dir) && '/' !in name
    ensures DirOf(PathIn(dir, name)) == dir
  {
    var f := PathIn(dir, name);
    var i := LastSlash(f);
    var n := |f| - |name| - 1;
    assert f[n] == '/';
    assert forall j :: n < j < |f| ==> f[j] == name[j - n - 1] && name[j - n - 1] in name;
    assert i == n;
  }

  lemma StripBase(base: string)
    ensures StripSuffix(base + ".desktop") == base
  {
  }

  lemma RemovePrefix(pattern: string, rest: string)
    requires pattern != ""
    ensures RemoveAll(pattern + rest, pattern) == RemoveAll(rest, pattern)
  {
  }

  lemma DropSlashPlain(s: string)
    requires '/' !in s
    ensures DropSlash(s) == s && DropSlash("/" + s) == s
  {
  }

  /** The file's own part of the path, when the directory occurs in it again. */
  lemma RemainderAgain(dir: string, name: string)
    requires |dir| > 1 && dir[0] == '/' && '/' !in name && dir[1..] <= name
    ensures DropSlash(RemoveAll("/" + name, dir)) == name[|dir| - 1..]
  {
    var rest, x := "/" + name, name[|dir| - 1..];
    assert dir == "/" + dir[1..];
    assert name == dir[1..] + x;
    assert rest == dir + x;
    RemovePrefix(dir, x);
    assert forall c :: c in x ==> c in name;
    NothingToRemove(x, dir);
    DropSlashPlain(x);
  }

  lemma RemainderOnce(dir: string, name: string)
    requires |dir| > 1 && dir[0] == '/' && '/' !in name && !(dir[1..] <= name)
    ensures DropSlash(RemoveAll("/" + name, dir)) == name
  {
    var rest := "/" + name;
    assert rest[1..] == name;
    NothingToRemove(name, dir);
    DropSlashPlain(name);
    assert RemoveAll(rest, dir) == "/" + name;
  }

  lemma RemainderAtRoot(name: string)
    requires '/' !in name
    ensures DropSlash(RemoveAll("/" + name, "/")) == name
  {
    RemovePrefix("/", name);
    NothingToRemove(name, "/");
    DropSlashPlain(name);
  }

  /** What is left of the path once its directory is removed everywhere. */
  lemma Remainder(dir: string, name: string)
    requires IsDir(dir) && '/' !in name
    ensures DropSlash(RemoveAll(PathIn(dir, name), dir)) ==
            if dir != "/" && dir[1..] <= name then name[|dir| - 1..] else name
  {
    if dir == "/" {
      RemainderAtRoot(name);
    } else {
      RemovePrefix(dir, "/" + name);
      if dir[1..] <= name {
        RemainderAgain(dir, name);
      } else {
        RemainderOnce(dir, name);
      }
    }
  }

  /** The left-over of a repeated directory name is the base name only when it is too short to be stripped. */
  lemma LeftOver(c: string, base: string)
    requires c != "" && c <= base + ".desktop" && '\n' !in base
    ensures StripSuffix((base + ".desktop")[|c|..]) == base <==> |base| < 8 && c + base == base + ".desktop"
  {
    var name := base + ".desktop";
    var x := name[|c|..];
    assert name == c + x && '\n' !in name;
    assert forall d :: d in x ==> d in name;
    assert x == "" || x[|x| - 1] in x;
    if |x| >= 8 {
      assert x[|x| - 7..|x|] == name[|name| - 7..|name|] == "desktop";
      assert x[|x| - 8] in x;
      assert StripSuffix(x) == x[..|x| - 8];
    } else {
      assert StripSuffix(x) == x;
      assert x == base <==> c + base == name;
    }
  }

  /** The id of a desktop file in a canonical directory is its base name, except in a directory right under
      the root whose name begins the file's name: that name is then removed a second time. Even then the id is
      right if what is left over happens to be a base name shorter than ".desktop". */
  lemma IdIsBaseIff(dir: string, base: string)
    requires IsDir(dir) && IsBase(base)
    ensures IdOf(PathIn(dir, base + ".desktop")) == base <==>
            || dir == "/" || !(dir[1..] <= base + ".desktop")
            || (|base| < 8 && dir[1..] + base == base + ".desktop")
  {
    var name := base + ".desktop";
    assert '/' !in name;
    DirOfPathIn(dir, name);
    Remainder(dir, name);
    StripBase(base);
    if dir != "/" && dir[1..] <= name {
      var x := name[|dir| - 1..];
      assert forall d :: d in x ==> d in name;
      assert Dashes(x) == x;
      LeftOver(dir[1..], base);
    }
  }

  lemma NotPrefix(a: string, b: string)
    requires '/' in a && '/' !in b
    ensures !(a <= b)
  {
  }

  /** So in every directory at least two levels deep the id is the base name. The directories never show in
      it, not even as the dashed prefix of the "Desktop file ID" of the Desktop Entry Specification. */
  lemma IdInDeepDirectory(dir: string, base: string)
    requires IsDir(dir) && '/' in dir[1..] && IsBase(base)
    ensures IdOf(PathIn(dir, base + ".desktop")) == base
  {
    NotPrefix(dir[1..], base + ".desktop");
    IdIsBaseIff(dir, base);
  }

  /** The exception is real: /usr/usr.desktop has the empty id. */
  lemma IdAtTopLevel()
    ensures IdOf("/usr/usr.desktop") != "usr"
  {
    assert PathIn("/usr", "usr" + ".desktop") == "/usr/usr.desktop";
    assert "/usr"[1..] == "usr" && "usr" <= "usr" + ".desktop";
    assert ("usr" + "usr")[0] == 'u' && |"usr" + "usr"| == 6 && |"usr" + ".desktop"| == 11;
    IdIsBaseIff("/usr", "usr");
  }
}
