/**
 * Shader keywords as the panels handle them: a keyword write enables or
 * disables one keyword, `SetKeyword` applies one write to every selected
 * material, and an enum is stored as a group of mutually exclusive keywords
 * that is decoded by a priority scan and encoded by writing every keyword of
 * the group.
 */
module KeywordStore {
  import opened Unity

  /** One `SetKeyword(keyword, enabled)` call, as a value. */
  datatype KeywordWrite = KeywordWrite(keyword: string, enabled: bool)

  /** What EnableKeyword or DisableKeyword does to one material's keyword set. */
  function Toggled(keys: set<string>, w: KeywordWrite): (r: set<string>)
    ensures w.keyword in r <==> w.enabled
    ensures forall k :: k != w.keyword ==> (k in r <==> k in keys)
  {
    if w.enabled then keys + {w.keyword} else keys - {w.keyword}
  }

  /** The keyword set after the writes `ws`, performed in order. */
  function ApplyWrites(keys: set<string>, ws: seq<KeywordWrite>): set<string>
    decreases |ws|
  {
    if ws == [] then keys else ApplyWrites(Toggled(keys, ws[0]), ws[1..])
  }

  /**
   * Reference meaning of a write sequence for one keyword: the last write to
   * `k` decides; with no write to `k`, its original presence `present` stays.
   */
  function LastWrite(ws: seq<KeywordWrite>, k: string, present: bool): bool
    decreases |ws|
  {
    if ws == [] then present
    else if ws[|ws| - 1].keyword == k then ws[|ws| - 1].enabled
    else LastWrite(ws[..|ws| - 1], k, present)
  }

  lemma {:induction false} ApplyWritesAppend(keys: set<string>, a: seq<KeywordWrite>, b: seq<KeywordWrite>)
    ensures ApplyWrites(keys, a + b) == ApplyWrites(ApplyWrites(keys, a), b)
    decreases |a|
  {
    if a != [] {
      assert (a + b)[1..] == a[1..] + b;
      ApplyWritesAppend(Toggled(keys, a[0]), a[1..], b);
    } else {
      assert a + b == b;
    }
  }

  /** Writing keywords in order is "last write wins" for every keyword. */
  lemma {:induction false} ApplyWritesLastWins(keys: set<string>, ws: seq<KeywordWrite>, k: string)
    ensures k in ApplyWrites(keys, ws) <==> LastWrite(ws, k, k in keys)
    decreases |ws|
  {
    if ws != [] {
      var init, last := ws[..|ws| - 1], ws[|ws| - 1];
      assert ws == init + [last];
      ApplyWritesAppend(keys, init, [last]);
      ApplyWritesLastWins(keys, init, k);
    }
  }

  /** A keyword that no write names keeps its presence. */
  lemma ApplyWritesUntouched(keys: set<string>, ws: seq<KeywordWrite>, k: string)
    requires forall i :: 0 <= i < |ws| ==> ws[i].keyword != k
    ensures k in ApplyWrites(keys, ws) <==> k in keys
  {
    ApplyWritesLastWins(keys, ws, k);
    LastWriteUntouched(ws, k, k in keys);
  }

  lemma {:induction false} LastWriteUntouched(ws: seq<KeywordWrite>, k: string, present: bool)
    requires forall i :: 0 <= i < |ws| ==> ws[i].keyword != k
    ensures LastWrite(ws, k, present) == present
    decreases |ws|
  {
    if ws != [] {
      LastWriteUntouched(ws[..|ws| - 1], k, present);
    }
  }

  lemma ApplyWritesSingle(keys: set<string>, w: KeywordWrite)
    ensures ApplyWrites(keys, [w]) == Toggled(keys, w)
  {
    assert [w][1..] == [];
  }

  // ---------------------------------------------------------------------------
  // Enums stored as groups of exclusive keywords

  /** One member of an enum together with the keyword that stands for it. */
  datatype Flag<V> = Flag(keyword: string, value: V)

  /**
   * Priority scan: the value of the first flag, in list order, whose keyword is
   * present; `default` when none is.
   */
  function Scan<V>(keys: set<string>, flags: seq<Flag<V>>, default: V): V
    decreases |flags|
  {
    if flags == [] then default
    else if flags[0].keyword in keys then flags[0].value
    else Scan(keys, flags[1..], default)
  }

  /** Storing `v`: every keyword of the group is written, enabled exactly for `v`'s flag. */
  function Encode<V(==)>(flags: seq<Flag<V>>, v: V): seq<KeywordWrite>
  {
    seq(|flags|, i requires 0 <= i < |flags| => KeywordWrite(flags[i].keyword, flags[i].value == v))
  }

  ghost predicate DistinctKeywords<V>(flags: seq<Flag<V>>)
  {
    forall i, j :: 0 <= i < j < |flags| ==> flags[i].keyword != flags[j].keyword
  }

  ghost predicate DistinctValues<V>(flags: seq<Flag<V>>)
  {
    forall i, j :: 0 <= i < j < |flags| ==> flags[i].value != flags[j].value
  }

  /** The scan returns the first flag that is present, whatever follows it. */
  lemma {:induction false} ScanFirstMatch<V>(keys: set<string>, flags: seq<Flag<V>>, default: V, i: nat)
    requires i < |flags| && flags[i].keyword in keys
    requires forall j :: 0 <= j < i ==> flags[j].keyword !in keys
    ensures Scan(keys, flags, default) == flags[i].value
    decreases i
  {
    if i > 0 {
      ScanFirstMatch(keys, flags[1..], default, i - 1);
    }
  }

  /** With no keyword of the group present, the scan gives the default. */
  lemma {:induction false} ScanNoMatch<V>(keys: set<string>, flags: seq<Flag<V>>, default: V)
    requires forall j :: 0 <= j < |flags| ==> flags[j].keyword !in keys
    ensures Scan(keys, flags, default) == default
    decreases |flags|
  {
    if flags != [] {
      ScanNoMatch(keys, flags[1..], default);
    }
  }

  /**
   * Encoding sets exactly the keyword of the chosen value's flags, clears the
   * rest of the group, and leaves every keyword outside the group alone.
   */
  lemma {:induction false} EncodeSetsExactly<V>(keys: set<string>, flags: seq<Flag<V>>, v: V)
    requires DistinctKeywords(flags)
    ensures forall i :: 0 <= i < |flags| ==>
      (flags[i].keyword in ApplyWrites(keys, Encode(flags, v)) <==> flags[i].value == v)
    ensures forall k :: (forall i :: 0 <= i < |flags| ==> flags[i].keyword != k) ==>
      (k in ApplyWrites(keys, Encode(flags, v)) <==> k in keys)
    decreases |flags|
  {
    if flags != [] {
      var rest := flags[1..];
      var keys' := Toggled(keys, KeywordWrite(flags[0].keyword, flags[0].value == v));
      assert Encode(flags, v)[1..] == Encode(rest, v);
      assert ApplyWrites(keys, Encode(flags, v)) == ApplyWrites(keys', Encode(rest, v));
      EncodeSetsExactly(keys', rest, v);
      forall i | 0 <= i < |flags|
        ensures flags[i].keyword in ApplyWrites(keys, Encode(flags, v)) <==> flags[i].value == v
      {
        if i == 0 {
          assert forall j :: 0 <= j < |rest| ==> rest[j].keyword != flags[0].keyword by {
            forall j | 0 <= j < |rest| ensures rest[j].keyword != flags[0].keyword {
              assert rest[j] == flags[j + 1];
            }
          }
        } else {
          assert flags[i] == rest[i - 1];
        }
      }
      forall k | forall i :: 0 <= i < |flags| ==> flags[i].keyword != k
        ensures k in ApplyWrites(keys, Encode(flags, v)) <==> k in keys
      {
        assert flags[0].keyword != k;
        assert forall j :: 0 <= j < |rest| ==> rest[j].keyword != k by {
          forall j | 0 <= j < |rest| ensures rest[j].keyword != k {
            assert rest[j] == flags[j + 1];
          }
        }
      }
    }
  }

  /** When the present keywords of a group are exactly those of `v`'s flags, the scan gives `v` back. */
  lemma {:induction false} ScanExact<V>(keys: set<string>, flags: seq<Flag<V>>, default: V, v: V)
    requires forall i :: 0 <= i < |flags| ==> (flags[i].keyword in keys <==> flags[i].value == v)
    ensures Scan(keys, flags, default) ==
      if exists i :: 0 <= i < |flags| && flags[i].value == v then v else default
    decreases |flags|
  {
    if flags != [] {
      var rest := flags[1..];
      ScanExact(keys, rest, default, v);
      if flags[0].value != v {
        if exists i :: 0 <= i < |flags| && flags[i].value == v {
          var i :| 0 <= i < |flags| && flags[i].value == v;
          assert rest[i - 1].value == v;
        } else {
          assert !exists i :: 0 <= i < |rest| && rest[i].value == v by {
            forall i | 0 <= i < |rest| ensures rest[i].value != v {
              assert rest[i] == flags[i + 1];
            }
          }
        }
      }
    }
  }

  /** Decoding what was encoded gives back the value, whatever keywords were there before. */
  lemma ScanEncodeRoundTrip<V>(keys: set<string>, flags: seq<Flag<V>>, default: V, v: V)
    requires DistinctKeywords(flags)
    requires v == default || exists i :: 0 <= i < |flags| && flags[i].value == v
    ensures Scan(ApplyWrites(keys, Encode(flags, v)), flags, default) == v
  {
    EncodeSetsExactly(keys, flags, v);
    ScanExact(ApplyWrites(keys, Encode(flags, v)), flags, default, v);
  }

  /** After encoding, at most one keyword of a group of distinct values is present. */
  lemma EncodeAtMostOne<V>(keys: set<string>, flags: seq<Flag<V>>, v: V, i: nat, j: nat)
    requires DistinctKeywords(flags) && DistinctValues(flags)
    requires i < |flags| && j < |flags|
    requires flags[i].keyword in ApplyWrites(keys, Encode(flags, v))
    requires flags[j].keyword in ApplyWrites(keys, Encode(flags, v))
    ensures i == j
  {
    EncodeSetsExactly(keys, flags, v);
  }

  // ---------------------------------------------------------------------------
  // Write sequences made of independent sections

  /** The keywords a write sequence names. */
  ghost predicate Names(ws: seq<KeywordWrite>, k: string)
  {
    exists i :: 0 <= i < |ws| && ws[i].keyword == k
  }

  /** The sections' writes, one section after another. */
  function Concat(sections: seq<seq<KeywordWrite>>): seq<KeywordWrite>
    decreases |sections|
  {
    if sections == [] then [] else sections[0] + Concat(sections[1..])
  }

  lemma {:induction false} ConcatAppend(a: seq<seq<KeywordWrite>>, b: seq<seq<KeywordWrite>>)
    ensures Concat(a + b) == Concat(a) + Concat(b)
    decreases |a|
  {
    if a == [] {
      assert a + b == b;
    } else {
      assert (a + b)[1..] == a[1..] + b;
      ConcatAppend(a[1..], b);
    }
  }

  /** One more section: the first `n + 1` sections are the first `n`, then section `n`. */
  lemma ConcatNextSection(sections: seq<seq<KeywordWrite>>, n: nat)
    requires n < |sections|
    ensures Concat(sections[..n + 1]) == Concat(sections[..n]) + sections[n]
  {
    assert sections[..n + 1] == sections[..n] + [sections[n]];
    ConcatAppend(sections[..n], [sections[n]]);
    assert [sections[n]][1..] == [];
  }

  /** A keyword written by neither part is not affected by the whole. */
  lemma AppendOutside(keys: set<string>, a: seq<KeywordWrite>, b: seq<KeywordWrite>, k: string)
    requires !Names(b, k)
    ensures k in ApplyWrites(keys, a + b) <==> k in ApplyWrites(keys, a)
  {
    ApplyWritesAppend(keys, a, b);
    ApplyWritesUntouched(ApplyWrites(keys, a), b, k);
  }

  /** A keyword the first part does not name ends as the second part alone leaves it. */
  lemma AppendSkipFirst(keys: set<string>, a: seq<KeywordWrite>, b: seq<KeywordWrite>, k: string)
    requires !Names(a, k)
    ensures k in ApplyWrites(keys, a + b) <==> k in ApplyWrites(keys, b)
  {
    ApplyWritesAppend(keys, a, b);
    ApplyWritesUntouched(keys, a, k);
    ApplyWritesLastWins(ApplyWrites(keys, a), b, k);
    ApplyWritesLastWins(keys, b, k);
  }

  /**
   * When only section `i` names `k`, the presence of `k` after all sections
   * is what section `i` alone makes of it: the other sections cannot disturb it.
   */
  lemma {:induction false} ConcatOwnSection(keys: set<string>, sections: seq<seq<KeywordWrite>>, i: nat, k: string)
    requires i < |sections|
    requires forall j :: 0 <= j < |sections| && j != i ==> !Names(sections[j], k)
    ensures k in ApplyWrites(keys, Concat(sections)) <==> k in ApplyWrites(keys, sections[i])
    decreases |sections|
  {
    if i == 0 {
      ConcatOutside(keys, sections[1..], k);
      AppendOutside(keys, sections[0], Concat(sections[1..]), k);
    } else {
      ConcatOwnSection(keys, sections[1..], i - 1, k);
      AppendSkipFirst(keys, sections[0], Concat(sections[1..]), k);
    }
  }

  /** A keyword no section names is not named by their concatenation. */
  lemma {:induction false} ConcatOutside(keys: set<string>, sections: seq<seq<KeywordWrite>>, k: string)
    requires forall j :: 0 <= j < |sections| ==> !Names(sections[j], k)
    ensures !Names(Concat(sections), k)
    ensures k in ApplyWrites(keys, Concat(sections)) <==> k in keys
    decreases |sections|
  {
    if sections != [] {
      ConcatOutside(keys, sections[1..], k);
      var c := sections[0] + Concat(sections[1..]);
      forall n | 0 <= n < |c|
        ensures c[n].keyword != k
      {
        if n < |sections[0]| {
          assert c[n] == sections[0][n];
        } else {
          assert c[n] == Concat(sections[1..])[n - |sections[0]|];
        }
      }
      ApplyWritesUntouched(keys, c, k);
    }
  }

  // ---------------------------------------------------------------------------
  // The whole multi-selection

  /** Every selected material after the writes `ws`; nothing but keywords changes. */
  function WithKeywords(states: seq<MaterialState>, ws: seq<KeywordWrite>): seq<MaterialState>
  {
    seq(|states|, j requires 0 <= j < |states| => states[j].(keywords := ApplyWrites(states[j].keywords, ws)))
  }

  lemma WithKeywordsNone(states: seq<MaterialState>)
    ensures WithKeywords(states, []) == states
  {
  }

  lemma WithKeywordsAppend(states: seq<MaterialState>, a: seq<KeywordWrite>, b: seq<KeywordWrite>)
    ensures WithKeywords(WithKeywords(states, a), b) == WithKeywords(states, a + b)
  {
    forall j | 0 <= j < |states|
      ensures WithKeywords(WithKeywords(states, a), b)[j] == WithKeywords(states, a + b)[j]
    {
      ApplyWritesAppend(states[j].keywords, a, b);
    }
  }

  /** Performing the sections one at a time on the selection: section `n` extends the first `n`. */
  lemma WithKeywordsNextSection(states: seq<MaterialState>, sections: seq<seq<KeywordWrite>>, n: nat)
    requires n < |sections|
    ensures WithKeywords(WithKeywords(states, Concat(sections[..n])), sections[n])
         == WithKeywords(states, Concat(sections[..n + 1]))
  {
    ConcatNextSection(sections, n);
    WithKeywordsAppend(states, Concat(sections[..n]), sections[n]);
  }

  /** `SetKeyword(keyword, state)`: the same keyword write on every selected material. */
  method SetKeyword(editor: MaterialEditor, keyword: string, state: bool)
    modifies editor.targets[..]
    ensures editor.States() == WithKeywords(old(editor.States()), [KeywordWrite(keyword, state)])
  {
    ghost var before := editor.States();
    ghost var after := WithKeywords(before, [KeywordWrite(keyword, state)]);
    var targets := editor.targets;
    if state {
      for i := 0 to targets.Length
        invariant before == old(editor.States())
        invariant Progress(editor.States(), before, after, i)
      {
        ghost var prev := editor.States();
        targets[i].EnableKeyword(keyword);
        forall j | 0 <= j < targets.Length
          ensures editor.States()[j] == after[j] || (i + 1 <= j && editor.States()[j] == before[j])
        {
          if targets[j] == targets[i] {
            assert before[j] == before[i];
            ApplyWritesSingle(before[i].keywords, KeywordWrite(keyword, state));
          } else {
            assert editor.States()[j] == prev[j];
          }
        }
      }
    } else {
      for i := 0 to targets.Length
        invariant before == old(editor.States())
        invariant Progress(editor.States(), before, after, i)
      {
        ghost var prev := editor.States();
        targets[i].DisableKeyword(keyword);
        forall j | 0 <= j < targets.Length
          ensures editor.States()[j] == after[j] || (i + 1 <= j && editor.States()[j] == before[j])
        {
          if targets[j] == targets[i] {
            assert before[j] == before[i];
            ApplyWritesSingle(before[i].keywords, KeywordWrite(keyword, state));
          } else {
            assert editor.States()[j] == prev[j];
          }
        }
      }
    }
  }
}
