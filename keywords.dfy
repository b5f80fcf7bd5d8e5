/** Keyword tables: the `keywords.some(keyword => className.includes(keyword))`
    test and the first-match search over an ordered table of groups that
    both classifiers, src/pages/Index.tsx and
    src/components/WasteClassifier.tsx, are built from. */
module Keywords {
  import opened Wrappers
  import opened Strings

  /** `keywords.some(keyword => name.includes(keyword))`. */
  predicate ContainsAny(name: string, keywords: seq<string>) {
    exists k :: 0 <= k < |keywords| && Contains(name, keywords[k])
  }

  /** The label of the first group of `table`, in order, one of whose
      keywords occurs in `name`. */
  function FirstGroup<L>(name: string, table: seq<(L, seq<string>)>): Option<L> {
    if |table| == 0 then None
    else if ContainsAny(name, table[0].1) then Some(table[0].0)
    else FirstGroup(name, table[1..])
  }

  /** A keyword list misses `name` when each keyword has a character, given
      in `marks`, that `name` lacks. */
  lemma MissesAll(name: string, keywords: seq<string>, marks: string)
    requires |marks| == |keywords|
    requires forall k :: 0 <= k < |keywords| ==> marks[k] in keywords[k] && marks[k] !in name
    ensures !ContainsAny(name, keywords)
  {
    forall k | 0 <= k < |keywords| ensures !Contains(name, keywords[k]) {
      NotContainsChar(name, keywords[k], marks[k]);
    }
  }

  /** The search answers the first group that a keyword matches. */
  lemma {:induction false} FirstGroupIs<L>(name: string, table: seq<(L, seq<string>)>, i: nat)
    requires i < |table| && ContainsAny(name, table[i].1)
    requires forall j :: 0 <= j < i ==> !ContainsAny(name, table[j].1)
    ensures FirstGroup(name, table) == Some(table[i].0)
  {
    if i > 0 {
      assert !ContainsAny(name, table[0].1);
      FirstGroupIs(name, table[1..], i - 1);
    }
  }

  /** It answers nothing exactly when no keyword of any group matches. */
  lemma {:induction false} FirstGroupNone<L>(name: string, table: seq<(L, seq<string>)>)
    ensures FirstGroup(name, table).None? <==>
      forall j :: 0 <= j < |table| ==> !ContainsAny(name, table[j].1)
  {
    if |table| > 0 {
      FirstGroupNone(name, table[1..]);
      assert forall j :: 1 <= j < |table| ==> table[j] == table[1..][j - 1];
    }
  }

  /** An answer is the label of a group that a keyword matches, with no
      earlier group matching. */
  lemma {:induction false} FirstGroupFrom<L>(name: string, table: seq<(L, seq<string>)>)
    ensures FirstGroup(name, table).Some? ==>
      exists i :: 0 <= i < |table| && table[i].0 == FirstGroup(name, table).value &&
        ContainsAny(name, table[i].1)
  {
    if |table| > 0 && !ContainsAny(name, table[0].1) {
      FirstGroupFrom(name, table[1..]);
      if FirstGroup(name, table).Some? {
        var i :| 0 <= i < |table| - 1 && table[1..][i].0 == FirstGroup(name, table).value &&
          ContainsAny(name, table[1..][i].1);
        assert table[i + 1] == table[1..][i];
      }
    }
  }
}
