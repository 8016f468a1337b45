/** Dotted field paths: built by hoodie/fields.py one name at a time, taken apart again by hoodie/indexes.py. */
module Paths {

  /** `"."` joined names; the empty path stands for the root. */
  function Join(names: seq<string>): string {
    if names == [] then "" else Extend(Join(names[..|names| - 1]), names[|names| - 1])
  }

  function Extend(prefix: string, name: string): string {
    if prefix == "" then name else prefix + "." + name
  }

  /** `path.split(".")`. */
  function Split(path: string): (parts: seq<string>)
    ensures parts != []
  {
    if path == "" then [""]
    else
      var front, last := Split(path[..|path| - 1]), path[|path| - 1];
      if last == '.' then front + [""]
      else front[..|front| - 1] + [front[|front| - 1] + [last]]
  }

  /** A field name: an identifier without a leading underscore. */
  predicate IsName(name: string) {
    name != "" && '.' !in name && name[0] != '_'
  }

  predicate AreNames(names: seq<string>) {
    forall i :: 0 <= i < |names| ==> IsName(names[i])
  }

  lemma {:induction false} SplitExtend(prefix: string, name: string)
    requires '.' !in name
    ensures Split(prefix + "." + name) == Split(prefix) + [name]
  {
    var path := prefix + "." + name;
    if name == "" {
      assert path[..|path| - 1] == prefix;
    } else {
      var init := name[..|name| - 1];
      SplitExtend(prefix, init);
      assert path[..|path| - 1] == prefix + "." + init;
      assert init + [name[|name| - 1]] == name;
      assert (Split(prefix) + [init])[..|Split(prefix)|] == Split(prefix);
    }
  }

  lemma {:induction false} SplitName(name: string)
    requires '.' !in name
    ensures Split(name) == [name]
  {
    if name != "" {
      SplitName(name[..|name| - 1]);
      assert name[..|name| - 1] + [name[|name| - 1]] == name;
    }
  }

  /** Splitting a joined path gives the names back, so paths of distinct name sequences differ. */
  lemma {:induction false} SplitJoin(names: seq<string>)
    requires names != [] && AreNames(names)
    ensures Split(Join(names)) == names && Join(names) != ""
  {
    var init, last := names[..|names| - 1], names[|names| - 1];
    assert init + [last] == names && IsName(names[|names| - 1]);
    if init == [] {
      SplitName(last);
    } else {
      SplitJoin(init);
      SplitExtend(Join(init), last);
    }
  }
}
