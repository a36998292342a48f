/** Saving uploaded files into the attachment directory under names that are free. */
module Uploads {
  import opened Bytes
  import opened Decimal
  import opened Names
  import opened Options
  import Text

  type Directory = map<string, Bytes>

  const MAX_BYTES: nat := 268435456
  const MAX_NAME: nat := 180

  /** What fails while one file is saved: opening the upload, creating the file, copying (after some octets),
      closing. */
  datatype Fault = NoFault | Source | Create | Copy(after: nat) | AtClose

  /** One file of a form: the name and size its header gives, what it holds, and what happens while it is saved;
      `stuck` says that removing what was copied fails too. */
  datatype Upload = Upload(name: string, size: int, content: Bytes, fault: Fault, stuck: bool)

  predicate SafeChar(c: char) {
    Alphanumeric(c) || c == '.' || c == '_' || c == '-'
  }

  /** unsafeName.ReplaceAllString(s, "_"): every run of unsafe characters becomes one underscore. */
  function ReplaceUnsafe(s: string, inRun: bool): string {
    if s == "" then ""
    else if SafeChar(s[0]) then [s[0]] + ReplaceUnsafe(s[1..], false)
    else (if inRun then "" else "_") + ReplaceUnsafe(s[1..], true)
  }

  /** safeFilename */
  function SafeFilename(name: string): string {
    var base := Text.TrimSpace(Base(name));
    var safe := ReplaceUnsafe(if base == "." || base == "/" || base == "" then "attachment" else base, false);
    if |safe| > MAX_NAME then safe[..MAX_NAME] else safe
  }

  /** filepath.Ext of a name without slashes */
  function Ext(name: string): (ext: string)
    ensures |ext| <= |name| && name[|name| - |ext|..] == ext
  {
    ExtFrom(name, |name|)
  }

  function ExtFrom(name: string, i: nat): (ext: string)
    requires i <= |name|
    ensures |ext| <= |name| && name[|name| - |ext|..] == ext
  {
    if i == 0 then "" else if name[i - 1] == '.' then name[i - 1..] else ExtFrom(name, i - 1)
  }

  function Stem(name: string): string {
    name[..|name| - |Ext(name)|]
  }

  /** The names that are tried: the safe name, then with a number before its extension. */
  function Candidate(name: string, i: nat): string {
    if i == 0 then name else Stem(name) + "-" + Numeral(i) + Ext(name)
  }

  /** os.Stat succeeds; a directory always has itself and its parent. */
  predicate Exists(d: Directory, name: string) {
    name in d || name == "." || name == ".."
  }

  lemma CandidatesDiffer(name: string, i: nat, j: nat)
    requires Candidate(name, i) == Candidate(name, j)
    ensures i == j
  {
    var stem, ext := Stem(name), Ext(name);
    assert name == stem + ext;
    if i > 0 && j > 0 {
      var a, b := Candidate(name, i), Candidate(name, j);
      assert a[|stem| + 1..|a| - |ext|] == Numeral(i) && b[|stem| + 1..|b| - |ext|] == Numeral(j);
      NumeralIsInjective(i, j);
    }
  }

  /** The first `n` candidates. */
  ghost function Candidates(name: string, n: nat): set<string> {
    if n == 0 then {} else Candidates(name, n - 1) + {Candidate(name, n - 1)}
  }

  lemma {:induction false} CandidatesAreMany(name: string, n: nat, existing: set<string>)
    requires forall j | 0 <= j < n :: Candidate(name, j) in existing
    ensures |Candidates(name, n)| == n && Candidates(name, n) <= existing
    ensures forall i | i >= n :: Candidate(name, i) !in Candidates(name, n)
  {
    if n > 0 {
      CandidatesAreMany(name, n - 1, existing);
      forall i | i >= n
        ensures Candidate(name, i) != Candidate(name, n - 1)
      {
        if Candidate(name, i) == Candidate(name, n - 1) {
          CandidatesDiffer(name, i, n - 1);
        }
      }
    }
  }

  function Existing(d: Directory): set<string> {
    d.Keys + {".", ".."}
  }

  /** So many candidates exist at most as there are entries, the directory itself and its parent included. */
  lemma {:induction false} SearchIsBounded(d: Directory, name: string, n: nat)
    requires forall j | 0 <= j < n :: Exists(d, Candidate(name, j))
    ensures n <= |Existing(d)|
  {
    var existing := Existing(d);
    CandidatesAreMany(name, n, existing);
    assert existing == (existing - Candidates(name, n)) + Candidates(name, n);
  }

  /** The number of the first candidate that is free. */
  ghost predicate FirstFree(d: Directory, name: string, i: nat) {
    !Exists(d, Candidate(name, i)) && forall j | 0 <= j < i :: Exists(d, Candidate(name, j))
  }

  /** The first candidate that is free. */
  ghost predicate IsFirstFree(d: Directory, name: string, target: string) {
    exists number :: FirstFree(d, name, number) && target == Candidate(name, number)
  }

  /** The first `n` candidates are taken. */
  ghost predicate Taken(d: Directory, name: string, n: nat) {
    forall j | 0 <= j < n :: Exists(d, Candidate(name, j))
  }

  lemma OneMoreTaken(d: Directory, name: string, n: nat)
    requires Taken(d, name, n) && Exists(d, Candidate(name, n))
    ensures Taken(d, name, n + 1) && n + 1 <= |Existing(d)|
  {
    SearchIsBounded(d, name, n + 1);
  }

  lemma CandidateOf(name: string, i: nat)
    ensures Candidate(name, i) == if i == 0 then name else Stem(name) + "-" + Numeral(i) + Ext(name)
  {
  }

  /** The search of saveUploadedFile, which ends in every directory. */
  method FreeName(d: Directory, name: string) returns (target: string)
    ensures IsFirstFree(d, name, target)
  {
    var ext, stem := Ext(name), Stem(name);
    target := name;
    ghost var number: nat := 0;
    var i := 1;
    while Exists(d, target)
      invariant i == number + 1
      invariant target == Candidate(name, number)
      invariant Taken(d, name, number)
      decreases |Existing(d)| - number
    {
      OneMoreTaken(d, name, number);
      CandidateOf(name, number + 1);
      number := number + 1;
      target := stem + "-" + Numeral(i) + ext;
      i := i + 1;
    }
    Found(d, name, number, target);
  }

  lemma Found(d: Directory, name: string, number: nat, target: string)
    requires target == Candidate(name, number) && !Exists(d, target) && Taken(d, name, number)
    ensures IsFirstFree(d, name, target)
  {
    assert FirstFree(d, name, number);
  }

  lemma {:induction false} ReplaceUnsafeIsSafe(s: string, inRun: bool)
    ensures forall c | c in ReplaceUnsafe(s, inRun) :: SafeChar(c)
    ensures s != "" && !inRun ==> ReplaceUnsafe(s, inRun) != ""
  {
    if s != "" {
      ReplaceUnsafeIsSafe(s[1..], false);
      ReplaceUnsafeIsSafe(s[1..], true);
    }
  }

  lemma {:induction false} ReplaceGap(gap: string, rest: string)
    requires (forall c | c in gap :: !SafeChar(c)) && (rest == "" || SafeChar(rest[0]))
    ensures ReplaceUnsafe(gap + rest, true) == ReplaceUnsafe(rest, false)
  {
    if gap == "" {
      assert gap + rest == rest;
    } else {
      assert gap[0] in gap && forall c | c in gap[1..] :: c in gap;
      ReplaceGap(gap[1..], rest);
      assert (gap + rest)[1..] == gap[1..] + rest;
    }
  }

  /** Safe characters stay, and whatever is between two of them becomes one underscore. */
  lemma {:induction false} ReplaceWord(word: string, gap: string, rest: string)
    requires (forall c | c in word :: SafeChar(c)) && (forall c | c in gap :: !SafeChar(c)) && gap != ""
    requires rest == "" || SafeChar(rest[0])
    ensures ReplaceUnsafe(word + gap + rest, false) == word + "_" + ReplaceUnsafe(rest, false)
  {
    if word == "" {
      assert gap[0] in gap && forall c | c in gap[1..] :: c in gap;
      ReplaceGap(gap[1..], rest);
      assert (word + gap + rest)[1..] == gap[1..] + rest;
    } else {
      assert word[0] in word && forall c | c in word[1..] :: c in word;
      ReplaceWord(word[1..], gap, rest);
      assert (word + gap + rest)[1..] == word[1..] + gap + rest;
    }
  }

  lemma {:induction false} ReplaceNothing(s: string)
    requires forall c | c in s :: SafeChar(c)
    ensures ReplaceUnsafe(s, false) == s
  {
    if s != "" {
      assert s[0] in s && forall c | c in s[1..] :: c in s;
      ReplaceNothing(s[1..]);
    }
  }

  lemma {:induction false} AfterLastSlash(dir: string, name: string)
    requires forall c | c in name :: !IsSlash(c)
    ensures AfterSlash(dir + "/" + name) == name
  {
    var s := dir + "/" + name;
    if name != "" {
      AfterLastSlash(dir, name[..|name| - 1]);
      assert s[..|s| - 1] == dir + "/" + name[..|name| - 1] && s[|s| - 1] == name[|name| - 1];
      assert name[|name| - 1] in name;
    }
  }

  /** Only the last part of a path counts. */
  lemma DirectoriesAreDropped(dir: string, name: string)
    requires name != "" && forall c | c in name :: !IsSlash(c)
    ensures SafeFilename(dir + "/" + name) == SafeFilename(name)
  {
    var path := dir + "/" + name;
    assert path[|path| - 1] == name[|name| - 1] && name[|name| - 1] in name;
    AfterLastSlash(dir, name);
    AfterNoSlash(name);
  }

  /** A name of letters, digits and the three safe signs stays as it is, but for what exceeds 180 characters. */
  lemma SafeNamesStay(name: string)
    requires name != "" && name != "." && forall c | c in name ::
               'a' <= c <= 'z' || 'A' <= c <= 'Z' || '0' <= c <= '9' || c in "._-"
    ensures SafeFilename(name) == if |name| <= 180 then name else name[..180]
  {
    assert name[0] in name && name[|name| - 1] in name;
    Text.TrimKeeps(name, Text.GoSpace);
    AfterNoSlash(name);
    ReplaceNothing(name);
  }

  /** An upload without a name to go by is called an attachment. */
  lemma NamelessUploads(name: string)
    requires (forall c | c in name :: IsSlash(c)) || (forall c | c in name :: Text.GoSpace(c)) || name == "."
    ensures SafeFilename(name) == "attachment"
  {
    Text.TrimRightAll(name, IsSlash);
    Text.TrimAll(name, Text.GoSpace);
    if name != "" && forall c | c in name :: Text.GoSpace(c) {
      assert name[|name| - 1] in name;
      AfterNoSlash(name);
    }
    Text.TrimKeeps(".", Text.GoSpace);
    Text.TrimKeeps("/", Text.GoSpace);
    AfterNoSlash(".");
    ReplaceNothing("attachment");
  }

  /** The extension is what follows the last point, with it. */
  lemma {:induction false} ExtFromLastPoint(name: string, i: nat)
    requires i <= |name| && forall j | i <= j < |name| :: name[j] != '.'
    ensures var ext := ExtFrom(name, i);
            if '.' in name then ext != "" && ext[0] == '.' && '.' !in ext[1..] else ext == ""
  {
    if i > 0 && name[i - 1] != '.' {
      ExtFromLastPoint(name, i - 1);
    } else if i > 0 {
      assert '.' in name && name[i - 1..][1..] == name[i..];
    }
  }

  lemma ExtIsFromLastPoint(name: string)
    ensures if '.' in name then Ext(name) != "" && Ext(name)[0] == '.' && '.' !in Ext(name)[1..] else Ext(name) == ""
  {
    ExtFromLastPoint(name, |name|);
  }

  /** Every candidate but the first has its number between the name and its extension. */
  lemma CandidatesKeepTheExtension(name: string, i: nat) returns (stem: string, ext: string)
    ensures Candidate(name, 0) == name == stem + ext
    ensures if '.' in name then ext != "" && ext[0] == '.' && '.' !in ext[1..] else ext == ""
    ensures i > 0 ==> Candidate(name, i) == stem + "-" + Numeral(i) + ext
  {
    stem, ext := Stem(name), Ext(name);
    assert name == stem + ext;
    ExtIsFromLastPoint(name);
    CandidateOf(name, i);
    CandidateOf(name, 0);
  }

  ghost predicate Safe(name: string) {
    name != "" && forall c | c in name :: SafeChar(c)
  }

  lemma SafeFilenames(name: string)
    ensures Safe(SafeFilename(name)) && |SafeFilename(name)| <= MAX_NAME
  {
    var base := Text.TrimSpace(Base(name));
    ReplaceUnsafeIsSafe(if base == "." || base == "/" || base == "" then "attachment" else base, false);
  }

  lemma SafeCandidates(name: string, i: nat)
    requires Safe(name)
    ensures Safe(Candidate(name, i))
  {
    assert name == Stem(name) + Ext(name);
    assert forall c | c in Numeral(i) :: IsDigit(c) && SafeChar(c);
  }

  lemma SafeIsAccepted(name: string)
    requires Safe(name) && name != "." && name != ".."
    ensures SafeStoredFilename(name)
  {
    assert name[0] in name && name[|name| - 1] in name;
    Text.TrimKeeps(name, Text.GoSpace);
    PlainNames(name);
  }

  /** Whatever a file is called, the name it is saved under is that of a file in the directory itself, one that the
      store's own check of file names accepts. */
  lemma ChosenNamesAreSafe(name: string, d: Directory, i: nat)
    requires FirstFree(d, SafeFilename(name), i)
    ensures SafeStoredFilename(Candidate(SafeFilename(name), i)) && |SafeFilename(name)| <= MAX_NAME
  {
    SafeFilenames(name);
    SafeCandidates(SafeFilename(name), i);
    SafeIsAccepted(Candidate(SafeFilename(name), i));
  }

  datatype Result = Saved | NotOpened | NotCreated | NotCopied | TooLarge | NotClosed

  /** How saving one file must end: nothing wrong, or the first thing that is. */
  function ResultOf(u: Upload): Result {
    if u.size > MAX_BYTES then TooLarge
    else match u.fault
      case Source => NotOpened
      case Create => NotCreated
      case Copy(_) => NotCopied
      case _ => if |u.content| > MAX_BYTES then TooLarge else if u.fault == AtClose then NotClosed else Saved
  }

  /** What became of the directory when it comes to the first free name for `u`: all of it was added, though possibly
      not closed properly; or nothing was; or a part of it was and could not be removed. */
  ghost predicate Leaves(u: Upload, before: Directory, after: Directory, target: string) {
    if ResultOf(u) == Saved || ResultOf(u) == NotClosed then after == before[target := u.content]
    else after == before
         || (u.stuck && target in after && after == before[target := after[target]] && after[target] <= u.content)
  }

  class Attachments {
    var files: Directory

    constructor (files: Directory)
      ensures this.files == files
    {
      this.files := files;
    }

    /** saveUploadedFile */
    method SaveUploadedFile(u: Upload) returns (result: Result, ghost target: string)
      modifies this
      ensures result == ResultOf(u) && Leaves(u, old(files), files, target)
      ensures result == TooLarge <==>
              u.size > 268435456 || (|u.content| > 268435456 && (u.fault == NoFault || u.fault == AtClose))
      ensures result == Saved <==> u.fault == NoFault && u.size <= 268435456 && |u.content| <= 268435456
      ensures result == Saved ==> target !in old(files) && files == old(files)[target := u.content]
      ensures result == Saved || result == NotClosed || files != old(files) ==>
              IsFirstFree(old(files), SafeFilename(u.name), target)
    {
      if u.size > MAX_BYTES {
        return TooLarge, "";
      }
      if u.fault == Source {
        return NotOpened, "";
      }
      var name := FreeName(files, SafeFilename(u.name));
      target := name;
      if u.fault == Create {
        return NotCreated, target;
      }
      var before := files;
      var copied := First(u.content, if u.fault.Copy? then u.fault.after else MAX_BYTES + 1);
      files := files[name := copied];
      if u.fault.Copy? {
        files := if u.stuck then files else before;
        return NotCopied, target;
      }
      if |copied| > MAX_BYTES {
        files := if u.stuck then files else before;
        return TooLarge, target;
      }
      return if u.fault == AtClose then NotClosed else Saved, target;
    }

    /** saveUploadedFiles: what was not sent is skipped, the first file that cannot be saved ends it. `names` are the
        names under which files were saved. */
    method SaveUploadedFiles(uploads: seq<Option<Upload>>)
      returns (count: nat, result: Result, ghost names: seq<string>)
      modifies this
      ensures |names| == count && Distinct(names)
      ensures forall name | name in old(files) :: name in files && files[name] == old(files)[name]
      ensures result == Saved <==> forall u | u in uploads && Sent(u) :: ResultOf(u.value) == Saved
      ensures result == Saved ==> Added(old(files), files, names, SentContents(uploads))
    {
      count, names := 0, [];
      for i := 0 to |uploads|
        invariant |names| == count && Distinct(names)
        invariant forall u | u in uploads[..i] && Sent(u) :: ResultOf(u.value) == Saved
        invariant Added(old(files), files, names, SentContents(uploads[..i]))
      {
        OneMoreEntry(uploads, i);
        if !Sent(uploads[i]) {
          continue;
        }
        var u := uploads[i].value;
        ghost var before := files;
        ghost var target;
        result, target := SaveUploadedFile(u);
        if result != Saved {
          assert uploads[i] in uploads;
          return;
        }
        OneMoreFile(old(files), before, names, SentContents(uploads[..i]), target, u.content);
        names := names + [target];
        count := count + 1;
      }
      assert uploads[..|uploads|] == uploads;
      result := Saved;
    }
  }

  predicate Distinct(names: seq<string>) {
    forall i, j | 0 <= i < j < |names| :: names[i] != names[j]
  }

  /** The new directory has the old entries, unchanged, and under each of the new names one of the contents, in
      order. */
  ghost predicate Added(before: Directory, after: Directory, names: seq<string>, contents: seq<Bytes>) {
    && |names| == |contents|
    && (forall name | name in before :: name in after && after[name] == before[name])
    && (forall i | 0 <= i < |names| :: names[i] !in before && names[i] in after && after[names[i]] == contents[i])
    && (forall name | name in after :: name in before || name in names)
  }

  lemma OneMoreFile(before: Directory, after: Directory, names: seq<string>, contents: seq<Bytes>, target: string,
                    content: Bytes)
    requires Added(before, after, names, contents) && Distinct(names) && target !in after
    ensures Added(before, after[target := content], names + [target], contents + [content])
            && Distinct(names + [target])
  {
    var more := names + [target];
    forall name | name in after[target := content]
      ensures name in before || name in more
    {
      if name != target && name !in before {
        assert name in names;
      } else {
        assert more[|names|] == target;
      }
    }
  }

  lemma OneMoreEntry(uploads: seq<Option<Upload>>, i: nat)
    requires i < |uploads|
    ensures uploads[..i + 1] == uploads[..i] + [uploads[i]]
    ensures SentContents(uploads[..i + 1])
            == SentContents(uploads[..i]) + if Sent(uploads[i]) then [uploads[i].value.content] else []
  {
    assert uploads[..i + 1][..i] == uploads[..i];
  }

  /** A form entry with a header and a file name. */
  predicate Sent(u: Option<Upload>) {
    u.Some? && u.value.name != ""
  }

  function SentContents(uploads: seq<Option<Upload>>): seq<Bytes> {
    if uploads == [] then []
    else
      var last := uploads[|uploads| - 1];
      SentContents(uploads[..|uploads| - 1]) + if Sent(last) then [last.value.content] else []
  }
}
