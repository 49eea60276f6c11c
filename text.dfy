/** The Python `str` operations the proxy pool relies on, over `seq<char>`:
    `strip`, `in`, `find`, `partition`, `rpartition`, `split`, `startswith`
    and ASCII `lower`. */
module Text {
  import opened Wrappers

  /** The characters for which Python's `str.isspace()` holds. */
  predicate IsSpace(c: char) {
    c == ' ' || ('\t' <= c <= '\r') || ('\U{1C}' <= c <= '\U{1F}')
    || c == '\U{85}' || c == '\U{A0}' || c == '\U{1680}'
    || ('\U{2000}' <= c <= '\U{200A}') || c == '\U{2028}' || c == '\U{2029}'
    || c == '\U{202F}' || c == '\U{205F}' || c == '\U{3000}'
  }

  /** `s.lstrip()`: the longest suffix of `s` that does not start with white space. */
  function StripLeft(s: string): (r: string)
    ensures |r| <= |s| && r == s[|s| - |r|..]
    ensures r == [] || !IsSpace(r[0])
    ensures forall i :: 0 <= i < |s| - |r| ==> IsSpace(s[i])
  {
    if s != [] && IsSpace(s[0]) then StripLeft(s[1..]) else s
  }

  /** `s.rstrip()`: the longest prefix of `s` that does not end with white space. */
  function StripRight(s: string): (r: string)
    ensures |r| <= |s| && r == s[..|r|]
    ensures r == [] || !IsSpace(r[|r| - 1])
    ensures forall i :: |r| <= i < |s| ==> IsSpace(s[i])
  {
    if s != [] && IsSpace(s[|s| - 1]) then StripRight(s[..|s| - 1]) else s
  }

  /** `s.strip()`. */
  function Strip(s: string): (r: string)
    ensures r == [] || (!IsSpace(r[0]) && !IsSpace(r[|r| - 1]))
  {
    StripRight(StripLeft(s))
  }

  /** A string that neither starts nor ends with white space is its own `strip()`. */
  lemma StripTrimmed(s: string)
    requires s == [] || (!IsSpace(s[0]) && !IsSpace(s[|s| - 1]))
    ensures Strip(s) == s
  {
  }

  /** `sub` occurs in `s` at index `i`. */
  predicate OccursAt(s: string, sub: string, i: nat) {
    i + |sub| <= |s| && s[i..i + |sub|] == sub
  }

  /** `s.find(sub, i)`, as an option: the first index at or after `i` where `sub` occurs. */
  function FindFrom(s: string, sub: string, i: nat): (r: Option<nat>)
    requires i <= |s|
    ensures r.Some? ==> i <= r.value && OccursAt(s, sub, r.value)
    ensures r.Some? ==> forall j :: i <= j < r.value ==> !OccursAt(s, sub, j)
    ensures r.None? ==> forall j :: i <= j <= |s| ==> !OccursAt(s, sub, j)
    decreases |s| - i
  {
    if OccursAt(s, sub, i) then Some(i)
    else if i == |s| then None
    else FindFrom(s, sub, i + 1)
  }

  /** `s.find(sub)`, as an option. */
  function Find(s: string, sub: string): Option<nat> {
    FindFrom(s, sub, 0)
  }

  /** Python's `sub in s`. */
  predicate Contains(s: string, sub: string) {
    Find(s, sub).Some?
  }

  /** Python's `c in s` for a single character. */
  lemma ContainsChar(s: string, c: char)
    ensures Contains(s, [c]) <==> c in s
  {
    if c in s {
      var i :| 0 <= i < |s| && s[i] == c;
      assert OccursAt(s, [c], i);
    }
    if Contains(s, [c]) {
      var i := Find(s, [c]).value;
      assert s[i] == s[i..i + 1][0];
    }
  }

  /** The three parts of Python's `s.partition(sep)`. */
  datatype Parts = Parts(head: string, found: bool, tail: string)

  /** `s.partition(sep)`: split at the first occurrence of `sep`; when there is
      none, the whole string is the head. */
  function Partition(s: string, sep: string): (p: Parts)
    requires |sep| > 0
    ensures !p.found ==> p.head == s && p.tail == [] && !Contains(s, sep)
    ensures p.found ==> s == p.head + sep + p.tail && OccursAt(s, sep, |p.head|)
    ensures p.found ==> Contains(s, sep) && Find(s, sep) == Some(|p.head|)
  {
    match Find(s, sep)
    case None => Parts(s, false, [])
    case Some(i) =>
      assert s == s[..i] + sep + s[i + |sep|..];
      Parts(s[..i], true, s[i + |sep|..])
  }

  /** `s.rpartition([c])`: split at the last occurrence of `c`; when there is
      none, the whole string is the tail. */
  function RPartitionChar(s: string, c: char): (p: Parts)
    ensures !p.found ==> p.head == [] && p.tail == s && c !in s
    ensures p.found ==> s == p.head + [c] + p.tail && c !in p.tail
  {
    if s == [] then Parts([], false, [])
    else if s[|s| - 1] == c then Parts(s[..|s| - 1], true, [])
    else
      var p := RPartitionChar(s[..|s| - 1], c);
      assert s == s[..|s| - 1] + [s[|s| - 1]];
      if p.found then Parts(p.head, true, p.tail + [s[|s| - 1]])
      else Parts([], false, s)
  }

  /** The pieces joined back with the separator, as Python's `c.join(parts)`. */
  function Join(parts: seq<string>, c: char): string {
    if parts == [] then []
    else if |parts| == 1 then parts[0]
    else parts[0] + [c] + Join(parts[1..], c)
  }

  /** `s.split(c)` for a one-character separator: the maximal pieces free of
      `c`, in order. */
  function Split(s: string, c: char): (parts: seq<string>)
    ensures |parts| >= 1
    ensures forall i :: 0 <= i < |parts| ==> c !in parts[i]
    decreases |s|
  {
    var p := Partition(s, [c]);
    if !p.found then ContainsChar(s, c); [s]
    else FirstSeparator(s, c); [p.head] + Split(p.tail, c)
  }

  /** Joining the pieces of a split with its separator gives back the text. */
  lemma {:induction false} SplitJoin(s: string, c: char)
    ensures Join(Split(s, c), c) == s
    decreases |s|
  {
    var p := Partition(s, [c]);
    if p.found {
      SplitJoin(p.tail, c);
      var rest := Split(p.tail, c);
      assert Split(s, c) == [p.head] + rest;
      assert ([p.head] + rest)[1..] == rest;
    }
  }

  /** `s.split(sep)[1]`: the text between the first and the second occurrence of
      `sep`, or to the end of `s` when there is no second one. */
  function SecondField(s: string, sep: string): string
    requires |sep| > 0 && Contains(s, sep)
  {
    Partition(Partition(s, sep).tail, sep).head
  }

  /** `s.startswith(p)`. */
  predicate StartsWith(s: string, p: string) {
    |p| <= |s| && s[..|p|] == p
  }

  /** Python's `c.lower()` restricted to ASCII letters. */
  function LowerChar(c: char): char {
    if 'A' <= c <= 'Z' then (c as int + 32) as char else c
  }

  /** `s.lower()` on ASCII letters; other characters are kept. */
  function Lower(s: string): (r: string)
    ensures |r| == |s| && forall i :: 0 <= i < |s| ==> r[i] == LowerChar(s[i])
  {
    seq(|s|, i requires 0 <= i < |s| => LowerChar(s[i]))
  }

  /** Text that starts as a stripped non-empty text and ends in a
      non-space character is unchanged by stripping. */
  lemma StripJoined(a: string, mid: string, b: string)
    requires a != [] && Strip(a) == a && b != [] && !IsSpace(b[|b| - 1])
    ensures Strip(a + mid + b) == a + mid + b
  {
    assert !IsSpace(a[0]);
    var s := a + mid + b;
    assert s[0] == a[0] && s[|s| - 1] == b[|b| - 1];
    StripTrimmed(s);
  }

  /** When `sub` occurs at `k` and nowhere before, `find` returns `k`. */
  lemma FindBound(s: string, sub: string, k: nat)
    requires OccursAt(s, sub, k)
    requires forall j :: 0 <= j < k ==> !OccursAt(s, sub, j)
    ensures Find(s, sub) == Some(k)
  {
  }

  /** `c` first occurs right after `a` when `a` does not contain it. */
  lemma FindFirstChar(a: string, c: char, b: string)
    requires c !in a
    ensures Find(a + [c] + b, [c]) == Some(|a|)
  {
    var s := a + [c] + b;
    assert OccursAt(s, [c], |a|);
    forall j | 0 <= j < |a| ensures !OccursAt(s, [c], j) {
      assert s[j..j + 1][0] == a[j];
    }
    FindBound(s, [c], |a|);
  }

  /** The head of a partition at a character does not contain it. */
  lemma FirstSeparator(s: string, c: char)
    ensures Partition(s, [c]).found ==> c !in Partition(s, [c]).head
  {
    var parts := Partition(s, [c]);
    if parts.found {
      forall j | 0 <= j < |parts.head| ensures parts.head[j] != c {
        assert !OccursAt(s, [c], j);
        assert s[j..j + 1][0] == s[j] == parts.head[j];
      }
    }
  }

  /** Splitting text whose first separator follows `a` yields `a` and then
      the pieces of the rest. */
  lemma SplitAt(a: string, c: char, b: string)
    requires c !in a
    ensures Split(a + [c] + b, c) == [a] + Split(b, c)
  {
    var s := a + [c] + b;
    FindFirstChar(a, c, b);
    var p := Partition(s, [c]);
    assert p.found && |p.head| == |a|;
    assert s[..|a|] == a && s[|a| + 1..] == b;
  }

  /** Text free of the separator is a single piece. */
  lemma SplitNone(s: string, c: char)
    requires c !in s
    ensures Split(s, c) == [s]
  {
    ContainsChar(s, c);
  }

  /** Partitioning at a character splits at its first occurrence: the text
      before it, and everything after it. */
  lemma PartitionFirst(a: string, c: char, b: string)
    requires c !in a
    ensures Partition(a + [c] + b, [c]) == Parts(a, true, b)
  {
    var s := a + [c] + b;
    FindFirstChar(a, c, b);
    assert s[..|a|] == a && s[|a| + 1..] == b;
  }

  /** Text without the character is not partitioned. */
  lemma PartitionAbsent(s: string, c: char)
    requires c !in s
    ensures Partition(s, [c]) == Parts(s, false, [])
  {
    ContainsChar(s, c);
  }

  /** Text without `:` holds no `://`. */
  lemma NoColonNoMark(s: string)
    ensures ':' !in s ==> !Contains(s, "://")
  {
    forall j | 0 <= j <= |s| && ':' !in s ensures !OccursAt(s, "://", j) {
      if j + 3 <= |s| {
        assert s[j..j + 3][0] == s[j];
      }
    }
  }

  /** Text without `/` holds no `://`. */
  lemma NoSlashNoMark(s: string)
    ensures '/' !in s ==> !Contains(s, "://")
  {
    forall j | 0 <= j <= |s| && '/' !in s ensures !OccursAt(s, "://", j) {
      if j + 3 <= |s| {
        assert s[j..j + 3][1] == s[j + 1];
      }
    }
  }

  /** Stripping brings in no character: `strip()` gives a slice of the text. */
  lemma StripKeepsOut(s: string, c: char)
    ensures c !in s ==> c !in Strip(s)
  {
    var l := StripLeft(s);
    var r := StripRight(l);
    forall i | 0 <= i < |r| ensures r[i] == s[|s| - |l| + i] {
      assert r[i] == l[i];
    }
  }
}
