/** File names of a stage directory (dir.rs): message files, and the hidden names of temporary
    and settling files. */
module Names {
  import opened Messages

  const TEMP_SUFFIX := ".tmp"
  const SETTLING_SUFFIX := ".settling"

  predicate IsHidden(name: string) {
    name != "" && name[0] == '.'
  }

  function HiddenName(name: string, suffix: string): string {
    "." + name + suffix
  }

  predicate EndsWith(s: string, suffix: string) {
    |suffix| <= |s| && s[|s| - |suffix|..] == suffix
  }

  function StripHiddenSuffix(name: string, suffix: string): Option<string> {
    if !IsHidden(name) then None
    else
      var rest := name[1..];
      if !EndsWith(rest, suffix) then None
      else
        var original := rest[..|rest| - |suffix|];
        if original == "" then None else Some(original)
  }

  /** Stripping finds exactly the hidden forms of nonempty names. */
  lemma StripUndoesHide(name: string, suffix: string, original: string)
    ensures StripHiddenSuffix(name, suffix) == Some(original)
         <==> name == HiddenName(original, suffix) && original != ""
    ensures HiddenName(original, suffix) == "." + original + suffix
  {
    if name == HiddenName(original, suffix) {
      assert name[1..] == original + suffix;
    }
  }

  /** A temporary name is not a settling name, nor the other way round. */
  lemma SuffixesApart(name: string)
    ensures StripHiddenSuffix(name, TEMP_SUFFIX).None? || StripHiddenSuffix(name, SETTLING_SUFFIX).None?
  {
    if IsHidden(name) {
      var rest := name[1..];
      if EndsWith(rest, TEMP_SUFFIX) {
        SameLast(rest, TEMP_SUFFIX);
      }
      if EndsWith(rest, SETTLING_SUFFIX) {
        SameLast(rest, SETTLING_SUFFIX);
      }
    }
  }

  lemma SameLast(s: string, suffix: string)
    requires suffix != "" && EndsWith(s, suffix)
    ensures s[|s| - 1] == suffix[|suffix| - 1]
  {
    assert s[|s| - |suffix|..][|suffix| - 1] == s[|s| - 1];
  }

  predicate Distinct(names: seq<string>) {
    forall i, j | 0 <= i < j < |names| :: names[i] != names[j]
  }

  // ---------------------------------------------------------------- sorted listings

  /** The order of file names, by their characters. */
  predicate Less(a: string, b: string) {
    b != "" && (a == "" || a[0] < b[0] || (a[0] == b[0] && Less(a[1..], b[1..])))
  }

  predicate AtMost(a: string, b: string) {
    a == b || Less(a, b)
  }

  predicate Ascending(names: seq<string>) {
    forall i, j | 0 <= i < j < |names| :: AtMost(names[i], names[j])
  }

  function Insert(names: seq<string>, n: string): seq<string> {
    if names == [] then [n]
    else if Less(n, names[0]) then [n] + names
    else [names[0]] + Insert(names[1..], n)
  }

  function SortNames(names: seq<string>): seq<string> {
    if names == [] then [] else Insert(SortNames(names[..|names| - 1]), names[|names| - 1])
  }

  /** Where two names first differ, the smaller character decides, and a name comes before every
      longer one that begins with it. */
  ghost predicate DiffersAt(a: string, b: string, k: nat) {
    k <= |a| && k < |b| && a[..k] == b[..k] && (k == |a| || a[k] < b[k])
  }

  lemma DiffersLater(a: string, b: string, k: nat)
    requires DiffersAt(a, b, k)
    ensures k > 0 ==> a != "" && a[0] == b[0]
  {
    if k > 0 {
      assert a[..k][0] == b[..k][0];
    }
  }

  lemma {:induction false} LessExactlyWhen(a: string, b: string)
    ensures Less(a, b) <==> exists k: nat :: DiffersAt(a, b, k)
  {
    if a == "" || b == "" {
      assert a == "" && b != "" ==> DiffersAt(a, b, 0);
    } else if a[0] != b[0] {
      assert a[0] < b[0] ==> DiffersAt(a, b, 0);
      forall k: nat | DiffersAt(a, b, k) ensures k == 0 {
        DiffersLater(a, b, k);
      }
    } else {
      LessExactlyWhen(a[1..], b[1..]);
      if k: nat :| DiffersAt(a[1..], b[1..], k) {
        assert a[..k + 1] == [a[0]] + a[1..][..k] && b[..k + 1] == [b[0]] + b[1..][..k];
        assert DiffersAt(a, b, k + 1);
      }
      if k: nat :| DiffersAt(a, b, k) {
        assert k > 0;
        assert a[1..][..k - 1] == a[..k][1..] && b[1..][..k - 1] == b[..k][1..];
        assert DiffersAt(a[1..], b[1..], k - 1);
      }
    }
  }

  lemma {:induction false} LessTotal(a: string, b: string)
    ensures AtMost(a, b) || Less(b, a)
  {
    if a != "" && b != "" && a[0] == b[0] {
      LessTotal(a[1..], b[1..]);
      assert a == [a[0]] + a[1..] && b == [b[0]] + b[1..];
    }
  }

  lemma {:induction false} LessThrough(a: string, b: string, c: string)
    requires Less(a, b) && Less(b, c)
    ensures Less(a, c)
  {
    if a != "" && a[0] == b[0] == c[0] {
      LessThrough(a[1..], b[1..], c[1..]);
    }
  }

  lemma {:induction false} InsertMembers(names: seq<string>, n: string)
    ensures forall m :: m in Insert(names, n) <==> m == n || m in names
  {
    if names != [] && !Less(n, names[0]) {
      InsertMembers(names[1..], n);
      assert names == [names[0]] + names[1..];
    }
  }

  lemma FirstOf(n: string, names: seq<string>)
    ensures Ascending(names) && (forall m | m in names :: AtMost(n, m)) ==> Ascending([n] + names)
    ensures Distinct(names) && n !in names ==> Distinct([n] + names)
  {
  }

  lemma {:induction false} InsertAscending(names: seq<string>, n: string)
    requires Ascending(names)
    ensures Ascending(Insert(names, n))
  {
    if names == [] {
    } else if Less(n, names[0]) {
      forall m | m in names ensures AtMost(n, m) {
        if m != names[0] {
          LessThrough(n, names[0], m);
        }
      }
      FirstOf(n, names);
    } else {
      LessTotal(names[0], n);
      InsertAscending(names[1..], n);
      InsertMembers(names[1..], n);
      FirstOf(names[0], Insert(names[1..], n));
    }
  }

  lemma {:induction false} InsertDistinct(names: seq<string>, n: string)
    requires Distinct(names) && n !in names
    ensures Distinct(Insert(names, n))
  {
    if names == [] {
    } else if Less(n, names[0]) {
      FirstOf(n, names);
    } else {
      InsertDistinct(names[1..], n);
      InsertMembers(names[1..], n);
      FirstOf(names[0], Insert(names[1..], n));
    }
  }

  /** The sort keeps the names and puts them in order. */
  lemma {:induction false} Sorts(names: seq<string>)
    ensures Ascending(SortNames(names))
    ensures forall n :: n in SortNames(names) <==> n in names
    ensures Distinct(names) ==> Distinct(SortNames(names))
  {
    if names != [] {
      var front, last := names[..|names| - 1], names[|names| - 1];
      Sorts(front);
      InsertMembers(SortNames(front), last);
      InsertAscending(SortNames(front), last);
      if Distinct(names) {
        InsertDistinct(SortNames(front), last);
      }
      assert names == front + [last];
    }
  }

  /** A directory has one entry for each name. */
  predicate OneEach(entries: seq<Entry>) {
    forall i, j | 0 <= i < j < |entries| :: entries[i].name != entries[j].name
  }

  datatype Entry = Entry(name: string, isFile: bool)

  /** The sorted names of the message files. */
  method ListMessages(entries: seq<Entry>) returns (names: seq<string>)
    ensures forall n :: n in names <==> Entry(n, true) in entries && (n == "" || n[0] != '.')
    ensures Ascending(names) && (OneEach(entries) ==> Distinct(names))
  {
    names := [];
    for i := 0 to |entries|
      invariant forall n :: n in names <==> Entry(n, true) in entries[..i] && !IsHidden(n)
      invariant OneEach(entries) ==> Distinct(names)
    {
      if !IsHidden(entries[i].name) && entries[i].isFile {
        names := names + [entries[i].name];
      }
    }
    Sorts(names);
    names := SortNames(names);
  }

  /** The sorted base names of the settling files. */
  method UnfinishedSettles(entries: seq<Entry>) returns (names: seq<string>)
    ensures forall n :: n in names <==>
              n != "" && exists e :: e in entries && e.name == HiddenName(n, SETTLING_SUFFIX)
    ensures Ascending(names) && (OneEach(entries) ==> Distinct(names))
  {
    names := [];
    for i := 0 to |entries|
      invariant forall n :: n in names <==>
                  n != "" && exists e :: e in entries[..i] && e.name == HiddenName(n, SETTLING_SUFFIX)
      invariant OneEach(entries) ==> Distinct(names)
    {
      forall n {
        StripUndoesHide(entries[i].name, SETTLING_SUFFIX, n);
      }
      match StripHiddenSuffix(entries[i].name, SETTLING_SUFFIX) {
        case Some(original) => names := names + [original];
        case None =>
      }
    }
    Sorts(names);
    names := SortNames(names);
  }

  /** What is in the in-progress directory: message files, settling files and temporary files,
      each under its own form of a base name. */
  ghost predicate Holds(entries: seq<Entry>, messages: set<string>, settling: set<string>, temporary: set<string>) {
    forall e :: e in entries <==>
      e.isFile && (e.name in messages
                   || (exists n :: n in settling && e.name == HiddenName(n, SETTLING_SUFFIX))
                   || (exists n :: n in temporary && e.name == HiddenName(n, TEMP_SUFFIX)))
  }

  ghost predicate BaseNames(names: set<string>) {
    forall n | n in names :: n != "" && !IsHidden(n)
  }

  lemma HiddenNamesDiffer(a: string, b: string)
    requires a != "" && b != ""
    ensures HiddenName(a, SETTLING_SUFFIX) == HiddenName(b, SETTLING_SUFFIX) <==> a == b
    ensures HiddenName(a, SETTLING_SUFFIX) != HiddenName(b, TEMP_SUFFIX)
    ensures IsHidden(HiddenName(a, SETTLING_SUFFIX)) && IsHidden(HiddenName(a, TEMP_SUFFIX))
  {
    StripUndoesHide(HiddenName(a, SETTLING_SUFFIX), SETTLING_SUFFIX, a);
    StripUndoesHide(HiddenName(b, SETTLING_SUFFIX), SETTLING_SUFFIX, b);
    StripUndoesHide(HiddenName(b, TEMP_SUFFIX), TEMP_SUFFIX, b);
    SuffixesApart(HiddenName(b, TEMP_SUFFIX));
  }

  /** The two listings split the directory: each finds exactly its own files under their base
      names, once each, and neither shows a temporary file. */
  method ListBoth(entries: seq<Entry>, ghost messages: set<string>, ghost settling: set<string>,
                  ghost temporary: set<string>)
    returns (listed: seq<string>, unfinished: seq<string>)
    requires BaseNames(messages) && BaseNames(settling) && BaseNames(temporary)
    requires OneEach(entries) && Holds(entries, messages, settling, temporary)
    ensures (set n | n in listed) == messages && Distinct(listed) && Ascending(listed)
    ensures (set n | n in unfinished) == settling && Distinct(unfinished) && Ascending(unfinished)
  {
    listed := ListMessages(entries);
    unfinished := UnfinishedSettles(entries);
    forall n ensures n in listed <==> n in messages {
      MessageListed(entries, messages, settling, temporary, n);
    }
    forall n ensures n in unfinished <==> n in settling {
      SettlingListed(entries, messages, settling, temporary, n);
    }
  }

  lemma MessageListed(entries: seq<Entry>, messages: set<string>, settling: set<string>, temporary: set<string>,
                      n: string)
    requires BaseNames(messages) && BaseNames(settling) && BaseNames(temporary)
    requires Holds(entries, messages, settling, temporary)
    ensures Entry(n, true) in entries && !IsHidden(n) <==> n in messages
  {
    assert forall m :: IsHidden(HiddenName(m, SETTLING_SUFFIX)) && IsHidden(HiddenName(m, TEMP_SUFFIX));
    assert Entry(n, true) in entries <==>
      n in messages
      || (exists m :: m in settling && n == HiddenName(m, SETTLING_SUFFIX))
      || (exists m :: m in temporary && n == HiddenName(m, TEMP_SUFFIX));
  }

  lemma SettlingListed(entries: seq<Entry>, messages: set<string>, settling: set<string>, temporary: set<string>,
                       n: string)
    requires BaseNames(messages) && BaseNames(settling) && BaseNames(temporary)
    requires Holds(entries, messages, settling, temporary)
    ensures n != "" && (exists e :: e in entries && e.name == HiddenName(n, SETTLING_SUFFIX)) <==> n in settling
  {
    var name := HiddenName(n, SETTLING_SUFFIX);
    if n in settling {
      assert Entry(name, true) in entries;
    } else if n != "" {
      forall e | e in entries ensures e.name != name {
        if e.name == name {
          assert IsHidden(name);
          if m :| m in settling && name == HiddenName(m, SETTLING_SUFFIX) {
            HiddenNamesDiffer(n, m);
          } else if m :| m in temporary && name == HiddenName(m, TEMP_SUFFIX) {
            HiddenNamesDiffer(n, m);
          }
        }
      }
    }
  }
}
