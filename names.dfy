/** File and group names: the read's base name taken from its path, and the
    choice of a fresh `Nanocall_NNN` basecall group. */
module Names {
  import opened Wrappers

  /** `find_last_of('/')` within the first `end` characters of `path`: the
      position of the last '/' there, or -1 (standing for `npos`) when there
      is none. */
  function FindLastSlash(path: string, end: nat): (i: int)
    requires end <= |path|
    ensures -1 <= i < end
    ensures i >= 0 ==> path[i] == '/'
    ensures forall k :: i < k < end ==> path[k] != '/'
    decreases end
  {
    if end == 0 then -1
    else if path[end - 1] == '/' then end - 1
    else FindLastSlash(path, end - 1)
  }

  /** The part of a path after its last '/', or the whole path without one. */
  function AfterLastSlash(path: string): string
  {
    path[FindLastSlash(path, |path|) + 1..]
  }

  /** The last component is a suffix of the path holding no '/', preceded by
      a '/' unless it is the whole path. */
  lemma AfterLastSlashIsLastComponent(path: string)
    ensures '/' !in AfterLastSlash(path)
    ensures |AfterLastSlash(path)| <= |path| && path[|path| - |AfterLastSlash(path)|..] == AfterLastSlash(path)
    ensures |AfterLastSlash(path)| < |path| ==> path[|path| - |AfterLastSlash(path)| - 1] == '/'
  {
    var i := FindLastSlash(path, |path|);
    var name := path[i + 1..];
    assert forall k :: 0 <= k < |name| ==> name[k] == path[i + 1 + k];
  }

  const Fast5Suffix: string := ".fast5"

  predicate EndsWith(s: string, suffix: string)
  {
    |suffix| <= |s| && s[|s| - |suffix|..] == suffix
  }

  /** The name with a trailing ".fast5" removed, if it has one. */
  function StripFast5(name: string): string
  {
    if EndsWith(name, Fast5Suffix) then name[..|name| - |Fast5Suffix|] else name
  }

  /** Putting the extension back on a stripped name gives the name again. */
  lemma StripFast5Restores(name: string)
    ensures EndsWith(name, Fast5Suffix) ==> StripFast5(name) + Fast5Suffix == name
    ensures !EndsWith(name, Fast5Suffix) ==> StripFast5(name) == name
  {
    if EndsWith(name, Fast5Suffix) {
      assert name == name[..|name| - |Fast5Suffix|] + name[|name| - |Fast5Suffix|..];
    }
  }

  /** The base file name, which is also the default read id: the file name
      after the last '/', without its ".fast5" extension. */
  function BaseName(path: string): string
  {
    StripFast5(AfterLastSlash(path))
  }

  /** A base name never holds a '/', and is what is left of the path's last
      component once the extension is removed. */
  lemma BaseNameIsLastComponent(path: string)
    ensures '/' !in BaseName(path)
    ensures EndsWith(path, BaseName(path)) || EndsWith(path, BaseName(path) + Fast5Suffix)
  {
    AfterLastSlashIsLastComponent(path);
    var name := AfterLastSlash(path);
    var base := BaseName(path);
    StripFast5Restores(name);
    if EndsWith(name, Fast5Suffix) {
      assert base + Fast5Suffix == name;
      assert forall k :: 0 <= k < |base| ==> base[k] == name[k];
    }
  }

  /** A '/' followed by a name without one: the name is what follows the
      last '/'. */
  lemma AfterLastSlashOfJoin(dir: string, name: string)
    requires '/' !in name
    ensures AfterLastSlash(dir + "/" + name) == name
  {
    var path := dir + "/" + name;
    assert path[|dir|] == '/';
    assert forall k :: |dir| < k < |path| ==> path[k] == name[k - |dir| - 1];
    assert FindLastSlash(path, |path|) == |dir|;
    assert path[|dir| + 1..] == name;
  }

  /** Round trip: the base name of `dir/name.fast5` is `name`. */
  lemma BaseNameRoundTrip(dir: string, name: string)
    requires '/' !in name
    ensures BaseName(dir + "/" + name + Fast5Suffix) == name
  {
    assert dir + "/" + name + Fast5Suffix == dir + "/" + (name + Fast5Suffix);
    AfterLastSlashOfJoin(dir, name + Fast5Suffix);
    var full := name + Fast5Suffix;
    assert full[|full| - |Fast5Suffix|..] == Fast5Suffix;
    assert full[..|full| - |Fast5Suffix|] == name;
  }

  /** Why a base name could not be computed. */
  datatype NameError = OutOfRange

  /** The base name as lines 143-148 compute it: `substr(size() - 6)` on a
      name shorter than six characters asks for a start position past the
      end (the unsigned difference wraps around), which throws. */
  function BaseNameAsWritten(path: string): Result<string, NameError>
  {
    var name := AfterLastSlash(path);
    if |name| < |Fast5Suffix| then Err(OutOfRange) else Ok(StripFast5(name))
  }

  /** On names of at least six characters both agree; a short name such as
      "a.f5" makes the code as written fail where a base name exists. */
  lemma BaseNameAsWrittenDiffers(path: string)
    ensures |AfterLastSlash(path)| >= |Fast5Suffix| ==> BaseNameAsWritten(path) == Ok(BaseName(path))
    ensures |AfterLastSlash(path)| < |Fast5Suffix| ==> BaseNameAsWritten(path).Err? && BaseName(path) == AfterLastSlash(path)
  {
    var name := AfterLastSlash(path);
    if |name| < |Fast5Suffix| {
      assert !EndsWith(name, Fast5Suffix);
    }
  }

  /** A name shorter than the suffix cannot end with it, so its base name is
      the name itself. */
  lemma ShortNameKept(path: string)
    requires |AfterLastSlash(path)| < |Fast5Suffix|
    ensures BaseName(path) == AfterLastSlash(path)
    ensures '/' !in BaseName(path)
  {
    AfterLastSlashIsLastComponent(path);
    assert !EndsWith(AfterLastSlash(path), Fast5Suffix);
  }

  lemma ShortNameExample()
    ensures BaseNameAsWritten("reads/a.f5") == Err(OutOfRange)
    ensures BaseName("reads/a.f5") == "a.f5"
  {
    assert "reads/a.f5" == "reads" + "/" + "a.f5";
    AfterLastSlashOfJoin("reads", "a.f5");
  }

  /** The basecall groups this program writes are named `Nanocall_` + tag. */
  const GroupPrefix: string := "Nanocall_"

  /** The tags of the groups: the non-empty rest of every group name that
      starts with the prefix. */
  function TagsIn(groups: seq<string>): set<string>
  {
    set g | g in groups && |g| > |GroupPrefix| && g[..|GroupPrefix|] == GroupPrefix :: g[|GroupPrefix|..]
  }

  /** The loop over the basecall groups collecting the tags in use: a tag is
      used exactly when the prefix followed by it names a group. */
  method UsedTags(groups: seq<string>) returns (tags: set<string>)
    ensures tags == TagsIn(groups)
    ensures forall t :: t in tags <==> t != "" && GroupPrefix + t in groups
  {
    tags := {};
    var i := 0;
    while i < |groups|
      invariant 0 <= i <= |groups|
      invariant forall t :: t in tags <==> t != "" && GroupPrefix + t in groups[..i]
    {
      var g := groups[i];
      assert groups[..i + 1] == groups[..i] + [g];
      if |g| > |GroupPrefix| && g[..|GroupPrefix|] == GroupPrefix {
        var tag := g[|GroupPrefix|..];
        assert GroupPrefix + tag == g;
        forall t | GroupPrefix + t == g ensures t == tag {
          assert (GroupPrefix + t)[|GroupPrefix|..] == t;
        }
        tags := tags + {tag};
      } else {
        forall t | t != "" ensures GroupPrefix + t != g {
          assert (GroupPrefix + t)[..|GroupPrefix|] == GroupPrefix;
        }
      }
      i := i + 1;
    }
    assert groups[..i] == groups;
    forall t | t in TagsIn(groups) ensures t in tags {
      var g :| g in groups && |g| > |GroupPrefix| && g[..|GroupPrefix|] == GroupPrefix && g[|GroupPrefix|..] == t;
      assert GroupPrefix + t == g;
    }
    forall t | t in tags ensures t in TagsIn(groups) {
      var g := GroupPrefix + t;
      assert g[..|GroupPrefix|] == GroupPrefix && g[|GroupPrefix|..] == t;
    }
  }

  function Digit(d: nat): (c: char)
    requires d < 10
    ensures '0' <= c <= '9'
  {
    ('0' as int + d) as char
  }

  /** `setw(3) << setfill('0') << i`: three decimal digits. */
  function Pad3(i: nat): (s: string)
    requires i < 1000
    ensures |s| == 3
  {
    [Digit(i / 100), Digit(i / 10 % 10), Digit(i % 10)]
  }

  /** Reading the three digits back gives the number. */
  function ParsePad3(s: string): int
    requires |s| == 3
  {
    100 * (s[0] as int - '0' as int) + 10 * (s[1] as int - '0' as int) + (s[2] as int - '0' as int)
  }

  lemma Pad3RoundTrip(i: nat)
    requires i < 1000
    ensures ParsePad3(Pad3(i)) == i
  {
  }

  lemma Pad3Injective(i: nat, j: nat)
    requires i < 1000 && j < 1000
    ensures Pad3(i) == Pad3(j) <==> i == j
  {
    Pad3RoundTrip(i);
    Pad3RoundTrip(j);
  }

  /** The first tag number from `from` on, below 1000, whose tag is not used. */
  function FirstFree(used: set<string>, from: nat): (r: Option<nat>)
    ensures r.Some? ==> from <= r.value < 1000 && Pad3(r.value) !in used
    decreases 1000 - from, used
  {
    if from >= 1000 then None
    else if Pad3(from) !in used then Some(from)
    else FirstFree(used, from + 1)
  }

  /** The loop over 000..999 picking the first tag not in use, if any. */
  method FreeTag(used: set<string>) returns (tag: Option<nat>)
    ensures tag == FirstFree(used, 0)
    ensures tag.Some? ==> tag.value < 1000 && Pad3(tag.value) !in used
    ensures tag.Some? ==> forall j: nat :: j < tag.value ==> Pad3(j) in used
    ensures tag.None? <==> forall j: nat :: j < 1000 ==> Pad3(j) in used
  {
    var i := 0;
    while i < 1000
      invariant 0 <= i <= 1000
      invariant forall j: nat :: j < i ==> Pad3(j) in used
      invariant FirstFree(used, i) == FirstFree(used, 0)
    {
      if Pad3(i) !in used {
        return Some(i);
      }
      i := i + 1;
    }
    return None;
  }

  /** The set of the first n tags. */
  function FirstTags(n: nat): set<string>
    requires n <= 1000
  {
    if n == 0 then {} else FirstTags(n - 1) + {Pad3(n - 1)}
  }

  /** The tags of the numbers from n on are not among the first n. */
  lemma {:induction false} FirstTagsExclude(n: nat, k: nat)
    requires n <= k < 1000
    ensures Pad3(k) !in FirstTags(n)
  {
    if n > 0 {
      FirstTagsExclude(n - 1, k);
      Pad3Injective(n - 1, k);
    }
  }

  lemma {:induction false} FirstTagsSize(n: nat)
    requires n <= 1000
    ensures |FirstTags(n)| == n
  {
    if n > 0 {
      FirstTagsSize(n - 1);
      FirstTagsExclude(n - 1, n - 1);
      var prev, t := FirstTags(n - 1), Pad3(n - 1);
      assert FirstTags(n) == prev + {t};
      assert |prev + {t}| == |prev| + 1;
    }
  }

  /** When every one of the first n tags is used, they are all in `used`. */
  lemma {:induction false} FirstTagsUsed(n: nat, used: set<string>)
    requires n <= 1000
    requires forall i: nat :: i < n ==> Pad3(i) in used
    ensures FirstTags(n) <= used
  {
    if n > 0 {
      FirstTagsUsed(n - 1, used);
    }
  }

  /** Fewer than 1000 used tags always leave one free, so the search fails
      only when all 1000 are taken. */
  lemma FreeTagExists(used: set<string>)
    requires |used| < 1000
    ensures exists i: nat :: i < 1000 && Pad3(i) !in used
  {
    if forall i: nat :: i < 1000 ==> Pad3(i) in used {
      FirstTagsUsed(1000, used);
      FirstTagsSize(1000);
      SubsetSize(FirstTags(1000), used);
    }
  }

  lemma {:induction false} SubsetSize(a: set<string>, b: set<string>)
    requires a <= b
    ensures |a| <= |b|
    decreases a
  {
    if a != {} {
      var x :| x in a;
      SubsetSize(a - {x}, b - {x});
    }
  }
}
