/** File names: Go's filepath.Base, and the names the store accepts for tasks and for files in their directories. */
module Names {
  import Text

  predicate IsSlash(c: char) {
    c == '/'
  }

  /** The part of a path after its last slash. */
  function AfterSlash(s: string): string {
    if s == "" || IsSlash(s[|s| - 1]) then "" else AfterSlash(s[..|s| - 1]) + [s[|s| - 1]]
  }

  /** filepath.Base */
  function Base(path: string): string {
    if path == "" then "."
    else
      var stripped := Text.TrimRight(path, IsSlash);
      if stripped == "" then "/" else AfterSlash(stripped)
  }

  predicate Separates(c: char) {
    c == '/' || c == '\\'
  }

  predicate PlainName(name: string) {
    name != "" && name == Text.TrimSpace(name) && name != "." && name != ".." && Base(name) == name
    && forall c | c in name :: !Separates(c)
  }

  predicate Alphanumeric(c: char) {
    'a' <= c <= 'z' || 'A' <= c <= 'Z' || '0' <= c <= '9'
  }

  predicate IDChar(c: char) {
    Alphanumeric(c) || c == '-' || c == '_' || c == '.'
  }

  /** isSafeTaskID */
  predicate SafeTaskID(id: string) {
    PlainName(id) && forall c | c in id :: IDChar(c)
  }

  /** isSafeStoredFilename */
  predicate SafeStoredFilename(name: string) {
    PlainName(name) && name[0] != '/'
  }

  lemma {:induction false} AfterNoSlash(s: string)
    requires forall c | c in s :: !IsSlash(c)
    ensures AfterSlash(s) == s
  {
    if s != "" {
      AfterNoSlash(s[..|s| - 1]);
    }
  }

  /** The checks of both predicates, but for the two directory names and surrounding white space, come down to which
      characters a name has. */
  lemma {:induction false} PlainNames(name: string)
    ensures PlainName(name) <==>
            name != "" && name != "." && name != ".." && name == Text.TrimSpace(name) && forall c | c in name ::
                !Separates(c)
    ensures SafeStoredFilename(name) <==> PlainName(name)
  {
    if name != "" && forall c | c in name :: !Separates(c) {
      assert Text.TrimRight(name, IsSlash) == name by {
        assert name[|name| - 1] in name;
      }
      AfterNoSlash(name);
      assert name[0] in name;
    } else if name != "" && name[0] == '/' {
      assert name[0] in name && Separates('/');
    }
  }

  /** A task id is safe exactly if it consists of Latin letters, digits and three signs, and names no directory. */
  lemma TaskIDs(id: string)
    ensures SafeTaskID(id) <==>
            id != "" && id != "." && id != ".." && forall c | c in id ::
                'a' <= c <= 'z' || 'A' <= c <= 'Z' || '0' <= c <= '9' || c in "-_."
  {
    PlainNames(id);
    if id != "" && forall c | c in id :: IDChar(c) {
      assert id[0] in id && id[|id| - 1] in id;
      Text.TrimKeeps(id, Text.GoSpace);
    }
  }
}
