// The legacy callback bridge carries its arguments in one string whose fields are separated
// by '|'. The C# side splits at the first separator only (`Split(new[] { '|' }, 2)`); the web
// side splits at every separator (`split('|')`).
module Payloads {
  import opened Wrappers

  const SEP: char := '|'

  /** Two fields joined by the separator, as `$"{a}|{b}"` and `` `${a}|${b}` `` build them. */
  function Join(a: string, b: string): string {
    a + [SEP] + b
  }

  /** The position of the first separator in `s`, or `|s|` when there is none. */
  function FirstSep(s: string): (i: nat)
    ensures i <= |s| && (i < |s| ==> s[i] == SEP)
    ensures forall k :: 0 <= k < i ==> s[k] != SEP
    decreases |s|
  {
    if |s| == 0 || s[0] == SEP then 0 else 1 + FirstSep(s[1..])
  }

  /** The position of the last separator in `s`, or -1 when there is none. */
  function LastSep(s: string): (i: int)
    ensures -1 <= i < |s| && (0 <= i ==> s[i] == SEP)
    ensures forall k :: i < k < |s| ==> s[k] != SEP
    decreases |s|
  {
    if |s| == 0 then -1 else if s[|s| - 1] == SEP then |s| - 1 else LastSep(s[..|s| - 1])
  }

  /**
   * `payload.Split(new[] { '|' }, 2)`: the text before the first separator, and the rest after
   * it when there is a separator at all (`parts.Length > 1`).
   */
  function SplitFirst(s: string): (r: (string, Option<string>))
    ensures r.1.None? <==> SEP !in s
    ensures SEP !in r.0
    ensures r.1.None? ==> r.0 == s
    ensures r.1.Some? ==> s == Join(r.0, r.1.value)
  {
    var i := FirstSep(s);
    if i == |s| then (s, None) else (s[..i], Some(s[i + 1..]))
  }

  /** `s.split('|')`: every field between separators, in order; there is always one field. */
  function SplitAll(s: string): (parts: seq<string>)
    ensures |parts| >= 1
    ensures forall k :: 0 <= k < |parts| ==> SEP !in parts[k]
    ensures JoinAll(parts) == s
    decreases |s|
  {
    var i := FirstSep(s);
    if i == |s| then [s]
    else
      var rest := SplitAll(s[i + 1..]);
      assert ([s[..i]] + rest)[1..] == rest;
      assert s == Join(s[..i], s[i + 1..]);
      [s[..i]] + rest
  }

  /** The fields joined back with one separator between neighbours (`parts.join('|')`). */
  function JoinAll(parts: seq<string>): string
    requires |parts| >= 1
    decreases |parts|
  {
    if |parts| == 1 then parts[0] else Join(parts[0], JoinAll(parts[1..]))
  }

  /**
   * The text before the last separator and the text after it, or nothing when `s` has no
   * separator.
   */
  function SplitLast(s: string): (r: Option<(string, string)>)
    ensures r.None? <==> SEP !in s
    ensures r.Some? ==> s == Join(r.value.0, r.value.1) && SEP !in r.value.1
  {
    var i := LastSep(s);
    if i < 0 then None
    else
      assert s == Join(s[..i], s[i + 1..]);
      Some((s[..i], s[i + 1..]))
  }

  // ---- Properties ----

  /** Splitting at the first separator undoes a join exactly when the first field has no separator. */
  lemma {:induction false} SplitFirstJoin(s: string, id: string, data: string)
    ensures SplitFirst(s) == (id, Some(data)) <==> s == Join(id, data) && SEP !in id
  {
    if s == Join(id, data) && SEP !in id {
      var i := FirstSep(s);
      assert s[|id|] == SEP;
      forall k | 0 <= k < |id| ensures s[k] != SEP {
        assert s[k] == id[k];
      }
      assert i == |id|;
      assert s[..i] == id && s[i + 1..] == data;
    }
  }

  /** A string with no separator splits to itself and no rest. */
  lemma {:induction false} SplitFirstPlain(s: string)
    requires SEP !in s
    ensures SplitFirst(s) == (s, None)
  {
  }

  /** Splitting at the last separator undoes a join exactly when the second field has no separator. */
  lemma {:induction false} SplitLastJoin(s: string, a: string, b: string)
    ensures SplitLast(s) == Some((a, b)) <==> s == Join(a, b) && SEP !in b
  {
    if s == Join(a, b) && SEP !in b {
      var i := LastSep(s);
      assert s[|a|] == SEP;
      forall k | |a| < k < |s| ensures s[k] != SEP {
        assert s[k] == b[k - |a| - 1];
      }
      assert i == |a|;
      assert s[..i] == a && s[i + 1..] == b;
    }
  }

  /** In two joined fields the first separator is the joining one when the first field has none. */
  lemma {:induction false} FirstSepOfJoin(a: string, b: string)
    requires SEP !in a
    ensures FirstSep(Join(a, b)) == |a|
  {
    var s := Join(a, b);
    assert s[|a|] == SEP;
    assert forall k :: 0 <= k < |a| ==> s[k] == a[k];
  }

  /** Splitting at every separator undoes joining fields that hold no separator. */
  lemma {:induction false} SplitAllJoinAll(parts: seq<string>)
    requires |parts| >= 1
    requires forall k :: 0 <= k < |parts| ==> SEP !in parts[k]
    ensures SplitAll(JoinAll(parts)) == parts
    decreases |parts|
  {
    var s := JoinAll(parts);
    if |parts| == 1 {
      assert s == parts[0];
      assert FirstSep(s) == |s|;
    } else {
      var a, rest := parts[0], JoinAll(parts[1..]);
      assert s == Join(a, rest);
      FirstSepOfJoin(a, rest);
      assert s[..|a|] == a && s[|a| + 1..] == rest;
      SplitAllJoinAll(parts[1..]);
      assert SplitAll(s) == [a] + SplitAll(rest);
      assert parts == [a] + parts[1..];
    }
  }
}
