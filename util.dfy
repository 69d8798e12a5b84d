/** The two string helpers main.go relies on: strings.HasPrefix and util.StringListToSet. */
module Util {

  /** `s` starts with `prefix` (Go's strings.HasPrefix). */
  predicate HasPrefix(s: string, prefix: string)
  {
    |prefix| <= |s| && s[..|prefix|] == prefix
  }

  /** The set of a list's entries (util.StringListToSet, whose map[string]bool is a set). */
  function StringListToSet(list: seq<string>): (s: set<string>)
    ensures forall x :: x in s <==> x in list
  {
    set x | x in list
  }
}
