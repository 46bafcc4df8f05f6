/**
 * `cleanBookId(id)`: turns an Open Library work path such as "/works/OL1W"
 * into the bare identifier "OL1W".
 */
module Book {

  /** A JavaScript value passed as a book id: a string, or any other value. */
  datatype BookId = StringId(s: string) | OtherId(tag: int)

  const WorksPrefix: string := "/works/"

  predicate IsSuffix(t: string, s: string) {
    |t| <= |s| && t == s[|s| - |t|..]
  }

  /**
   * Drops a leading "/works/" (the first occurrence, which is the prefix),
   * then a single leading "/".
   */
  function CleanBookId(id: BookId): (r: BookId)
    ensures id.OtherId? ==> r == id
    ensures id.StringId? ==> r.StringId? && IsSuffix(r.s, id.s) && |id.s| - |r.s| <= |WorksPrefix| + 1
  {
    match id
    case OtherId(_) => id
    case StringId(s) =>
      var afterWorks := if WorksPrefix <= s then s[|WorksPrefix|..] else s;
      var afterSlash := if "/" <= afterWorks then afterWorks[1..] else afterWorks;
      StringId(afterSlash)
  }

  /** A string that does not start with '/' is returned unchanged. */
  lemma NoLeadingSlashUnchanged(s: string)
    requires !("/" <= s)
    ensures CleanBookId(StringId(s)) == StringId(s)
  {
  }

  /** "/works/" followed by a string that does not start with '/' yields that string. */
  lemma WorksPathCleaned(s: string)
    requires !("/" <= s)
    ensures CleanBookId(StringId(WorksPrefix + s)) == StringId(s)
  {
  }

  /** "/works/" followed by "/" + s yields s: both rewrites apply. */
  lemma WorksPathThenSlashCleaned(s: string)
    ensures CleanBookId(StringId(WorksPrefix + "/" + s)) == StringId(s)
  {
  }

  /** "/" + s, not a works path, loses exactly that one slash. */
  lemma SingleSlashStripped(s: string)
    requires !(WorksPrefix <= "/" + s)
    ensures CleanBookId(StringId("/" + s)) == StringId(s)
  {
  }

  /** Only one slash is removed: "//x" yields "/x". */
  lemma DoubleSlashKeepsOne()
    ensures CleanBookId(StringId("//x")) == StringId("/x")
  {
  }
}
