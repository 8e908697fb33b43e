/** Text as the configuration functions see it: bytes cut into lines at '\n'. */
module TextLines {

  datatype Line = Line(text: string, ended: bool)

  /** Position of the first `c`, or `|s|` when there is none. */
  function IndexOf(s: string, c: char): (i: nat)
    ensures i <= |s|
    ensures forall j :: 0 <= j < i ==> s[j] != c
    ensures i < |s| ==> s[i] == c
  {
    if s == "" || s[0] == c then 0 else 1 + IndexOf(s[1..], c)
  }

  function StripCr(t: string): string {
    if t != "" && t[|t| - 1] == '\r' then t[..|t| - 1] else t
  }

  /** What a C string function sees of a byte buffer: everything before the first NUL. */
  function CString(t: string): string {
    t[..IndexOf(t, '\0')]
  }

  function Lines(s: string): (ls: seq<Line>)
    decreases |s|
  {
    var e := IndexOf(s, '\n');
    if s == "" then []
    else if e == |s| then [Line(s, false)]
    else [Line(s[..e], true)] + Lines(s[e + 1..])
  }

  function Raw(l: Line): string {
    l.text + if l.ended then "\n" else ""
  }

  function Join(ls: seq<Line>): string {
    if ls == [] then "" else Raw(ls[0]) + Join(ls[1..])
  }

  ghost predicate WellFormed(ls: seq<Line>) {
    && (forall i :: 0 <= i < |ls| ==> '\n' !in ls[i].text)
    && (forall i :: 0 <= i < |ls| && !ls[i].ended ==> i == |ls| - 1 && ls[i].text != "")
  }

  lemma {:induction false} IndexOfUnique(s: string, c: char, i: nat)
    requires i <= |s|
    requires c !in s[..i]
    requires i < |s| ==> s[i] == c
    ensures IndexOf(s, c) == i
  {
    if i > 0 {
      assert s[..i][0] == s[0];
      assert s[1..][..i - 1] == s[..i][1..];
      IndexOfUnique(s[1..], c, i - 1);
    }
  }

  lemma WellFormedConcat(a: seq<Line>, b: seq<Line>)
    requires WellFormed(a) && WellFormed(b)
    requires a == [] || a[|a| - 1].ended || b == []
    ensures WellFormed(a + b)
  {
  }

  lemma Associate<T>(a: seq<T>, b: seq<T>, c: seq<T>)
    ensures (a + b) + c == a + (b + c)
  {
  }

  lemma {:induction false} JoinFirst(l: Line, rest: seq<Line>)
    ensures Join([l] + rest) == Raw(l) + Join(rest)
  {
    assert ([l] + rest)[1..] == rest;
  }

  lemma FirstLine(s: string, e: nat)
    requires e < |s| && s[e] == '\n'
    ensures s == Raw(Line(s[..e], true)) + s[e + 1..]
  {
    assert s == s[..e] + [s[e]] + s[e + 1..];
  }

  lemma {:induction false} JoinLines(s: string)
    ensures WellFormed(Lines(s)) && Join(Lines(s)) == s
    ensures s != "" ==> Lines(s) != []
    decreases |s|
  {
    var e := IndexOf(s, '\n');
    if s == "" {
    } else if e == |s| {
      assert Join(Lines(s)) == s + "" + "";
    } else {
      var first, rest := Line(s[..e], true), Lines(s[e + 1..]);
      JoinLines(s[e + 1..]);
      WellFormedConcat([first], rest);
      JoinFirst(first, rest);
      FirstLine(s, e);
    }
  }

  lemma {:induction false} LinesOfEndedLine(text: string, rest: string)
    requires '\n' !in text
    ensures Lines(text + "\n" + rest) == [Line(text, true)] + Lines(rest)
  {
    var s := text + "\n" + rest;
    assert s[..|text|] == text && s[|text| + 1..] == rest;
    IndexOfUnique(s, '\n', |text|);
  }

  lemma {:induction false} LinesOfOpenLine(text: string)
    requires '\n' !in text && text != ""
    ensures Lines(text) == [Line(text, false)]
  {
    assert text[..|text|] == text;
    IndexOfUnique(text, '\n', |text|);
  }

  lemma {:induction false} LinesJoin(ls: seq<Line>)
    requires WellFormed(ls)
    ensures Lines(Join(ls)) == ls
  {
    if ls != [] {
      var l, rest := ls[0], ls[1..];
      LinesJoin(rest);
      assert ls == [l] + rest;
      if l.ended {
        LinesOfEndedLine(l.text, Join(rest));
      } else {
        assert rest == [];
        assert Join(ls) == l.text;
        LinesOfOpenLine(l.text);
      }
    }
  }

  lemma {:induction false} JoinConcat(a: seq<Line>, b: seq<Line>)
    ensures Join(a + b) == Join(a) + Join(b)
  {
    if a == [] {
      assert a + b == b;
    } else {
      JoinConcat(a[1..], b);
      assert a + b == [a[0]] + (a[1..] + b);
      JoinFirst(a[0], a[1..] + b);
      Associate(Raw(a[0]), Join(a[1..]), Join(b));
    }
  }
}

/**
 The meaning of the configuration updates, of the merge, the parse and the lookup on whole texts,
 for any list of editable keys.
 */
module ConfigText {
  import opened Wrappers
  import opened TextLines

  const VALUE_SIZE := 128

  /** The editable keys in table order, and the value of each key that has one. */
  datatype Table = Table(keys: seq<string>, values: map<string, string>)

  /** The key of a line: what stands before its first '=', a trailing CR being ignored. */
  function KeyOf(l: Line): Option<string> {
    var t := StripCr(l.text);
    var e := IndexOf(t, '=');
    if e < |t| then Some(t[..e]) else None
  }

  function ValueOf(l: Line): string
    requires KeyOf(l).Some?
  {
    var t := StripCr(l.text);
    t[IndexOf(t, '=') + 1..]
  }

  function Entry(k: string, v: string): Line {
    Line(k + "=" + v, true)
  }

  /** What one slot of the update table can hold. */
  ghost predicate Storable(v: string) {
    '\n' !in v && '\0' !in v && |v| < VALUE_SIZE
  }

  ghost predicate PlainKey(k: string) {
    k != "" && '=' !in k && '\n' !in k
  }

  /** Keys are different, and none of them ends in another one. */
  ghost predicate Independent(keys: seq<string>) {
    && (forall i :: 0 <= i < |keys| ==> keys[i] !in keys[i + 1..])
    && (forall k, p :: k in keys && p != "" ==> p + k !in keys)
  }

  ghost predicate ValidTable(t: Table) {
    && (forall k :: k in t.keys ==> PlainKey(k))
    && (forall k :: k in t.values ==> k in t.keys && Storable(t.values[k]))
  }

  lemma EntryKey(k: string, v: string)
    requires '=' !in k
    ensures KeyOf(Entry(k, v)) == Some(k)
    ensures ValueOf(Entry(k, v)) == StripCr(v)
  {
    var t := k + "=" + v;
    var c := StripCr(t);
    if v != "" && v[|v| - 1] == '\r' {
      assert c == k + "=" + v[..|v| - 1];
    } else {
      assert c == t;
    }
    assert c[..|k|] == k && c[|k| + 1..] == StripCr(v);
    IndexOfUnique(c, '=', |k|);
  }

  // ---------------------------------------------------------------- merge

  predicate Replaces(t: Table, l: Line) {
    KeyOf(l).Some? && KeyOf(l).value in t.values
  }

  function Rewrite(t: Table, l: Line): Line {
    if Replaces(t, l) then Entry(KeyOf(l).value, t.values[KeyOf(l).value]) else l
  }

  function RewriteAll(t: Table, ls: seq<Line>): (r: seq<Line>)
    ensures |r| == |ls| && forall i :: 0 <= i < |ls| ==> r[i] == Rewrite(t, ls[i])
  {
    if ls == [] then [] else [Rewrite(t, ls[0])] + RewriteAll(t, ls[1..])
  }

  /** The keys with a value that occur in the text. */
  function Matched(t: Table, ls: seq<Line>): (m: set<string>)
    ensures forall k :: k in m <==> k in t.values && exists i :: 0 <= i < |ls| && KeyOf(ls[i]) == Some(k)
  {
    if ls == [] then {}
    else (if Replaces(t, ls[0]) then {KeyOf(ls[0]).value} else {}) + Matched(t, ls[1..])
  }

  /** One entry for each of `keys` that has a value and is not in `written`, in order. */
  function Appended(t: Table, keys: seq<string>, written: set<string>): seq<Line> {
    if keys == [] then []
    else (if keys[0] in t.values && keys[0] !in written then [Entry(keys[0], t.values[keys[0]])] else [])
         + Appended(t, keys[1..], written)
  }

  /**
   The bytes the merge produces for table `t`, of which the keys in `written` were already written
   by an earlier merge.
   */
  function MergeWith(t: Table, written: set<string>, s: string): string {
    Join(RewriteAll(t, Lines(s))) + Join(Appended(t, t.keys, written + Matched(t, Lines(s))))
  }

  /** The merge that follows a parse: nothing has been written yet. */
  function Merge(t: Table, s: string): string {
    MergeWith(t, {}, s)
  }

  function Missing(t: Table, s: string): seq<Line> {
    Appended(t, t.keys, Matched(t, Lines(s)))
  }

  function MergedLines(t: Table, s: string): seq<Line> {
    RewriteAll(t, Lines(s)) + Missing(t, s)
  }

  /**
   The last line has no newline, is kept as it is, and something is appended after it: the first
   appended entry then ends up on that same line.
   */
  predicate Glued(t: Table, s: string) {
    var ls := Lines(s);
    ls != [] && !ls[|ls| - 1].ended && !Replaces(t, ls[|ls| - 1]) && Missing(t, s) != []
  }

  lemma MergeJoins(t: Table, s: string)
    ensures Merge(t, s) == Join(MergedLines(t, s))
  {
    JoinConcat(RewriteAll(t, Lines(s)), Missing(t, s));
    assert {} + Matched(t, Lines(s)) == Matched(t, Lines(s));
  }

  /** An entry of `t`: rewriting it gives it back. */
  ghost predicate IsEntry(t: Table, l: Line) {
    Replaces(t, l) && Rewrite(t, l) == l
  }

  lemma EntryIsEntry(t: Table, k: string)
    requires ValidTable(t) && k in t.values
    ensures IsEntry(t, Entry(k, t.values[k]))
    ensures '\n' !in Entry(k, t.values[k]).text
  {
    EntryKey(k, t.values[k]);
  }

  lemma {:induction false} AppendedIsEntry(t: Table, keys: seq<string>, written: set<string>, l: Line)
    requires ValidTable(t) && l in Appended(t, keys, written)
    ensures IsEntry(t, l) && KeyOf(l).value !in written && KeyOf(l).value in keys
  {
    var k := keys[0];
    if k in t.values && k !in written && l == Entry(k, t.values[k]) {
      EntryIsEntry(t, k);
      EntryKey(k, t.values[k]);
    } else {
      AppendedIsEntry(t, keys[1..], written, l);
    }
  }

  lemma {:induction false} AppendedHas(t: Table, keys: seq<string>, written: set<string>, k: string)
    requires k in keys && k in t.values && k !in written
    ensures Entry(k, t.values[k]) in Appended(t, keys, written)
  {
    if keys[0] != k {
      AppendedHas(t, keys[1..], written, k);
    }
  }

  lemma RewriteKeepsKey(t: Table, l: Line)
    requires ValidTable(t)
    ensures KeyOf(Rewrite(t, l)) == KeyOf(l)
    ensures Replaces(t, l) ==> IsEntry(t, Rewrite(t, l)) && ValueOf(Rewrite(t, l)) == StripCr(t.values[KeyOf(l).value])
  {
    if Replaces(t, l) {
      EntryKey(KeyOf(l).value, t.values[KeyOf(l).value]);
    }
  }

  /** Every line of a merged text that has an updated key is the entry of that key. */
  lemma MergedLineIsEntry(t: Table, s: string, l: Line)
    requires ValidTable(t) && l in MergedLines(t, s) && Replaces(t, l)
    ensures IsEntry(t, l)
  {
    var ls, m, r := Lines(s), Missing(t, s), MergedLines(t, s);
    var i :| 0 <= i < |r| && r[i] == l;
    if i < |ls| {
      assert l == Rewrite(t, ls[i]);
      RewriteKeepsKey(t, ls[i]);
    } else {
      assert l in m;
      AppendedIsEntry(t, t.keys, Matched(t, ls), l);
    }
  }

  lemma {:induction false} MatchedCons(t: Table, l: Line, rest: seq<Line>)
    ensures Matched(t, [l] + rest) == (if Replaces(t, l) then {KeyOf(l).value} else {}) + Matched(t, rest)
  {
    assert ([l] + rest)[1..] == rest;
  }

  lemma {:induction false} MatchedConcat(t: Table, a: seq<Line>, b: seq<Line>)
    ensures Matched(t, a + b) == Matched(t, a) + Matched(t, b)
  {
    if a == [] {
      assert a + b == b;
    } else {
      var l, rest := a[0], a[1..];
      assert a == [l] + rest && a + b == [l] + (rest + b);
      MatchedCons(t, l, rest);
      MatchedCons(t, l, rest + b);
      MatchedConcat(t, rest, b);
    }
  }

  lemma {:induction false} MatchedRewrite(t: Table, ls: seq<Line>)
    requires ValidTable(t)
    ensures Matched(t, RewriteAll(t, ls)) == Matched(t, ls)
  {
    if ls != [] {
      MatchedRewrite(t, ls[1..]);
      RewriteKeepsKey(t, ls[0]);
    }
  }

  lemma {:induction false} UpdatedKeyOccurs(t: Table, s: string, k: string)
    requires ValidTable(t) && k in t.values
    ensures k in Matched(t, MergedLines(t, s))
  {
    MatchedConcat(t, RewriteAll(t, Lines(s)), Missing(t, s));
    MatchedRewrite(t, Lines(s));
    if k !in Matched(t, Lines(s)) {
      AppendedHas(t, t.keys, Matched(t, Lines(s)), k);
      EntryKey(k, t.values[k]);
      assert k in Matched(t, Missing(t, s));
    }
  }

  lemma {:induction false} RewriteWellFormed(t: Table, ls: seq<Line>)
    requires ValidTable(t) && WellFormed(ls)
    ensures WellFormed(RewriteAll(t, ls))
  {
    if ls != [] {
      RewriteWellFormed(t, ls[1..]);
      if Replaces(t, ls[0]) {
        EntryIsEntry(t, KeyOf(ls[0]).value);
      }
      assert RewriteAll(t, ls) == [Rewrite(t, ls[0])] + RewriteAll(t, ls[1..]);
    }
  }

  lemma {:induction false} AppendedWellFormed(t: Table, keys: seq<string>, written: set<string>)
    requires ValidTable(t)
    ensures WellFormed(Appended(t, keys, written))
    ensures forall l :: l in Appended(t, keys, written) ==> l.ended
  {
    if keys != [] {
      AppendedWellFormed(t, keys[1..], written);
      if keys[0] in t.values {
        EntryIsEntry(t, keys[0]);
      }
    }
  }

  /** Unless something is glued, the merged text consists of exactly the rewritten and appended lines. */
  lemma MergeLines(t: Table, s: string)
    requires ValidTable(t) && !Glued(t, s)
    ensures Lines(Merge(t, s)) == MergedLines(t, s)
  {
    JoinLines(s);
    MergeJoins(t, s);
    RewriteWellFormed(t, Lines(s));
    AppendedWellFormed(t, t.keys, Matched(t, Lines(s)));
    WellFormedConcat(RewriteAll(t, Lines(s)), Missing(t, s));
    LinesJoin(MergedLines(t, s));
  }

  /**
   A merge that glues nothing leaves every line where it is: one that begins with an updated key and '=' becomes
   that key's new entry, every other one stays as it is, byte for byte.
   */
  lemma {:induction false} MergeKeepsLines(t: Table, s: string, i: nat)
    requires ValidTable(t) && !Glued(t, s) && i < |Lines(s)|
    ensures i < |Lines(Merge(t, s))|
    ensures var l, m := Lines(s)[i], Lines(Merge(t, s))[i];
      && (forall k :: k in t.values && k + "=" <= StripCr(l.text) ==> m == Line(k + "=" + t.values[k], true))
      && ((forall k :: k in t.values ==> !(k + "=" <= StripCr(l.text))) ==> m == l)
  {
    MergeLines(t, s);
    RewriteByText(t, Lines(s)[i]);
  }

  lemma RewriteByText(t: Table, l: Line)
    requires ValidTable(t)
    ensures forall k :: k in t.values && k + "=" <= StripCr(l.text) ==>
              Rewrite(t, l) == Line(k + "=" + t.values[k], true)
    ensures (forall k :: k in t.values ==> !(k + "=" <= StripCr(l.text))) ==> Rewrite(t, l) == l
  {
    forall k | k in t.values && k + "=" <= StripCr(l.text)
      ensures Rewrite(t, l) == Line(k + "=" + t.values[k], true)
    {
      KeyFromPrefix(l, k);
    }
    if KeyOf(l).Some? {
      KeyOfStarts(l);
    }
  }

  /** `x` is the entry of a key that stands in front of the key of `y`. */
  predicate Precedes(keys: seq<string>, x: Line, y: Line) {
    exists a, b :: 0 <= a < b < |keys| && KeyOf(x) == Some(keys[a]) && KeyOf(y) == Some(keys[b])
  }

  lemma PrecedesBehind(keys: seq<string>, x: Line, y: Line)
    requires keys != [] && Precedes(keys[1..], x, y)
    ensures Precedes(keys, x, y)
  {
    var a, b :| 0 <= a < b < |keys[1..]| && KeyOf(x) == Some(keys[1..][a]) && KeyOf(y) == Some(keys[1..][b]);
    assert keys[a + 1] == keys[1..][a] && keys[b + 1] == keys[1..][b];
  }

  lemma PrecedesFirst(keys: seq<string>, x: Line, y: Line)
    requires keys != [] && KeyOf(x) == Some(keys[0]) && KeyOf(y).Some? && KeyOf(y).value in keys[1..]
    ensures Precedes(keys, x, y)
  {
    var b :| 0 <= b < |keys[1..]| && KeyOf(y).value == keys[1..][b];
    assert keys[b + 1] == keys[1..][b];
  }

  predicate InOrder(keys: seq<string>, ls: seq<Line>) {
    forall i, j :: 0 <= i < j < |ls| ==> Precedes(keys, ls[i], ls[j])
  }

  lemma InOrderBehind(keys: seq<string>, ls: seq<Line>)
    requires keys != [] && InOrder(keys[1..], ls)
    ensures InOrder(keys, ls)
  {
    forall i, j | 0 <= i < j < |ls|
      ensures Precedes(keys, ls[i], ls[j])
    {
      PrecedesBehind(keys, ls[i], ls[j]);
    }
  }

  lemma InOrderFirst(keys: seq<string>, x: Line, ls: seq<Line>)
    requires keys != [] && InOrder(keys, ls) && KeyOf(x) == Some(keys[0])
    requires forall y :: y in ls ==> KeyOf(y).Some? && KeyOf(y).value in keys[1..]
    ensures InOrder(keys, [x] + ls)
  {
    var all := [x] + ls;
    forall i, j | 0 <= i < j < |all|
      ensures Precedes(keys, all[i], all[j])
    {
      var y := ls[j - 1];
      assert all[j] == y;
      if i == 0 {
        PrecedesFirst(keys, x, y);
      } else {
        assert Precedes(keys, ls[i - 1], y);
      }
    }
  }

  lemma {:induction false} AppendedInOrder(t: Table, keys: seq<string>, written: set<string>)
    requires ValidTable(t)
    ensures InOrder(keys, Appended(t, keys, written))
  {
    if keys != [] {
      var k, rest := keys[0], Appended(t, keys[1..], written);
      AppendedInOrder(t, keys[1..], written);
      InOrderBehind(keys, rest);
      if k in t.values && k !in written {
        EntryKey(k, t.values[k]);
        forall y | y in rest
          ensures KeyOf(y).Some? && KeyOf(y).value in keys[1..]
        {
          AppendedIsEntry(t, keys[1..], written, y);
        }
        InOrderFirst(keys, Entry(k, t.values[k]), rest);
      }
    }
  }

  lemma {:induction false} MatchedIff(t: Table, ls: seq<Line>, k: string)
    requires k in t.values && '=' !in k
    ensures k in Matched(t, ls) <==> exists l :: l in ls && k + "=" <= StripCr(l.text)
  {
    forall l | l in ls
      ensures KeyOf(l) == Some(k) <==> k + "=" <= StripCr(l.text)
    {
      if KeyOf(l) == Some(k) {
        KeyOfStarts(l);
      }
      if k + "=" <= StripCr(l.text) {
        KeyFromPrefix(l, k);
      }
    }
    if l :| l in ls && k + "=" <= StripCr(l.text) {
      var i :| 0 <= i < |ls| && ls[i] == l;
    }
  }

  /** What is appended: an entry for each updated key that no line begins with, in the order of the table. */
  lemma {:induction false} MissingIff(t: Table, s: string, e: Line)
    requires ValidTable(t)
    ensures e in Missing(t, s) <==>
      exists k :: k in t.values && e == Line(k + "=" + t.values[k], true)
                  && forall l :: l in Lines(s) ==> !(k + "=" <= StripCr(l.text))
    ensures InOrder(t.keys, Missing(t, s))
  {
    var w := Matched(t, Lines(s));
    if e in Missing(t, s) {
      AppendedIsEntry(t, t.keys, w, e);
      MatchedIff(t, Lines(s), KeyOf(e).value);
    }
    if k :| k in t.values && e == Line(k + "=" + t.values[k], true)
            && forall l :: l in Lines(s) ==> !(k + "=" <= StripCr(l.text)) {
      MatchedIff(t, Lines(s), k);
      AppendedHas(t, t.keys, w, k);
    }
    AppendedInOrder(t, t.keys, w);
  }

  lemma {:induction false} AppendedNone(t: Table, keys: seq<string>, written: set<string>)
    requires forall k :: k in keys && k in t.values ==> k in written
    ensures Appended(t, keys, written) == []
  {
    if keys != [] {
      AppendedNone(t, keys[1..], written);
    }
  }

  lemma {:induction false} RewriteMergedLines(t: Table, s: string)
    requires ValidTable(t)
    ensures RewriteAll(t, MergedLines(t, s)) == MergedLines(t, s)
  {
    var r := MergedLines(t, s);
    forall i | 0 <= i < |r|
      ensures RewriteAll(t, r)[i] == r[i]
    {
      if Replaces(t, r[i]) {
        MergedLineIsEntry(t, s, r[i]);
      }
    }
  }

  lemma MergeTwice(t: Table, s: string)
    requires ValidTable(t) && !Glued(t, s)
    ensures Merge(t, Merge(t, s)) == Merge(t, s)
  {
    var r := MergedLines(t, s);
    MergeLines(t, s);
    RewriteMergedLines(t, s);
    forall k | k in t.values
      ensures k in Matched(t, r)
    {
      UpdatedKeyOccurs(t, s, k);
    }
    AppendedNone(t, t.keys, Matched(t, r));
    MergeJoins(t, Merge(t, s));
    MergeJoins(t, s);
    assert r + [] == r;
  }

  // ---------------------------------------------------------------- glued lines

  lemma {:induction false} FirstAppended(t: Table, keys: seq<string>, written: set<string>) returns (i: nat)
    requires Appended(t, keys, written) != []
    ensures i < |keys| && keys[i] in t.values && keys[i] !in written
    ensures Appended(t, keys, written) == [Entry(keys[i], t.values[keys[i]])] + Appended(t, keys[i + 1..], written)
  {
    if keys[0] in t.values && keys[0] !in written {
      i := 0;
    } else {
      var j := FirstAppended(t, keys[1..], written);
      i := j + 1;
      assert keys[1..][j + 1..] == keys[i + 1..];
    }
  }

  lemma KeyFromPrefix(l: Line, k: string)
    requires '=' !in k && k + "=" <= StripCr(l.text)
    ensures KeyOf(l) == Some(k)
  {
    var c := StripCr(l.text);
    assert c[..|k|] == (k + "=")[..|k|] == k;
    assert c[|k|] == (k + "=")[|k|] == '=';
    IndexOfUnique(c, '=', |k|);
  }

  lemma StripCrKeeps(head: string, v: string)
    requires head != "" && head[|head| - 1] != '\r'
    ensures head <= StripCr(head + v)
  {
  }

  lemma HasKeyIff(l: Line)
    ensures KeyOf(l).Some? <==> '=' in l.text
    ensures KeyOf(l).Some? ==> '=' !in KeyOf(l).value && KeyOf(l).value + "=" <= l.text
  {
  }

  /** A line glued in front of an entry keeps its own key if it has one, and forms no editable key otherwise. */
  lemma GluedLineKey(t: Table, l: Line, k: string)
    requires ValidTable(t) && Independent(t.keys) && k in t.values
    requires !Replaces(t, l) && l.text != ""
    ensures !Replaces(t, Line(l.text + Entry(k, t.values[k]).text, true))
  {
    var v := t.values[k];
    var g := Line(l.text + Entry(k, v).text, true);
    assert g.text == l.text + k + "=" + v;
    StripCrKeeps(l.text + k + "=", v);
    HasKeyIff(l);
    if '=' in l.text {
      KeyFromPrefix(g, KeyOf(l).value);
    } else {
      KeyFromPrefix(g, l.text + k);
    }
  }

  /** The lines of a glued merge: the first appended entry stands behind the last line of the text. */
  function GluedLines(t: Table, ls: seq<Line>, k: string, rest: seq<Line>): seq<Line>
    requires ls != [] && k in t.values
  {
    var n := |ls| - 1;
    RewriteAll(t, ls[..n]) + ([Line(ls[n].text + Entry(k, t.values[k]).text, true)] + rest)
  }

  lemma {:induction false} GluedBytes(l: Line, e: Line, rest: seq<Line>)
    requires !l.ended && e.ended
    ensures Join([l] + ([e] + rest)) == Join([Line(l.text + e.text, true)] + rest)
  {
    var g := Line(l.text + e.text, true);
    assert ([l] + ([e] + rest))[1..] == [e] + rest;
    assert ([e] + rest)[1..] == rest && ([g] + rest)[1..] == rest;
    calc {
      Join([l] + ([e] + rest));
      l.text + "" + (e.text + "\n" + Join(rest));
      g.text + "\n" + Join(rest);
    }
  }

  lemma {:induction false} RewriteOne(t: Table, l: Line)
    ensures RewriteAll(t, [l]) == [Rewrite(t, l)]
  {
  }

  /** A last line that is not replaced is the last line of the rewriting. */
  lemma {:induction false} KeptLast(t: Table, ls: seq<Line>, tail: seq<Line>)
    requires ls != [] && !Replaces(t, ls[|ls| - 1])
    ensures RewriteAll(t, ls) + tail == RewriteAll(t, ls[..|ls| - 1]) + ([ls[|ls| - 1]] + tail)
  {
    var init, last := ls[..|ls| - 1], ls[|ls| - 1];
    assert ls == init + [last];
    RewriteConcat(t, init, [last]);
    RewriteOne(t, last);
    Associate(RewriteAll(t, init), [last], tail);
  }

  lemma {:induction false} GluedMergeBytes(t: Table, ls: seq<Line>, k: string, rest: seq<Line>)
    requires ls != [] && k in t.values
    requires !ls[|ls| - 1].ended && !Replaces(t, ls[|ls| - 1])
    ensures Join(RewriteAll(t, ls) + ([Entry(k, t.values[k])] + rest)) == Join(GluedLines(t, ls, k, rest))
  {
    var n, e := |ls| - 1, Entry(k, t.values[k]);
    var init := RewriteAll(t, ls[..n]);
    var l, tail := ls[n], [e] + rest;
    var glued := [Line(l.text + e.text, true)] + rest;
    KeptLast(t, ls, tail);
    JoinConcat(init, [l] + tail);
    GluedBytes(l, e, rest);
    JoinConcat(init, glued);
  }

  lemma GluedLineWellFormed(t: Table, l: Line, k: string)
    requires ValidTable(t) && k in t.values && '\n' !in l.text
    ensures WellFormed([Line(l.text + Entry(k, t.values[k]).text, true)])
  {
    EntryIsEntry(t, k);
  }

  lemma GluedParts(init: seq<Line>, g: Line, rest: seq<Line>)
    requires WellFormed(init) && WellFormed([g]) && g.ended && WellFormed(rest)
    requires init != [] ==> init[|init| - 1].ended
    ensures WellFormed(init + ([g] + rest))
  {
    WellFormedConcat([g], rest);
    WellFormedConcat(init, [g] + rest);
  }

  lemma {:induction false} EndedInit(t: Table, init: seq<Line>)
    requires ValidTable(t) && WellFormed(init) && forall i :: 0 <= i < |init| ==> init[i].ended
    ensures WellFormed(RewriteAll(t, init))
    ensures init != [] ==> RewriteAll(t, init)[|init| - 1].ended
  {
    RewriteWellFormed(t, init);
    assert init != [] ==> RewriteAll(t, init)[|init| - 1] == Rewrite(t, init[|init| - 1]);
  }

  lemma GluedWellFormed(t: Table, ls: seq<Line>, k: string, rest: seq<Line>)
    requires ValidTable(t) && WellFormed(ls) && WellFormed(rest)
    requires ls != [] && k in t.values
    ensures WellFormed(GluedLines(t, ls, k, rest))
  {
    var n := |ls| - 1;
    EndedInit(t, ls[..n]);
    GluedLineWellFormed(t, ls[n], k);
    GluedParts(RewriteAll(t, ls[..n]), Line(ls[n].text + Entry(k, t.values[k]).text, true), rest);
  }

  lemma {:induction false} GluedMergeLines(t: Table, s: string, k: string, rest: seq<Line>)
    requires ValidTable(t) && Glued(t, s)
    requires k in t.values && Missing(t, s) == [Entry(k, t.values[k])] + rest
    ensures Lines(Merge(t, s)) == GluedLines(t, Lines(s), k, rest)
  {
    JoinLines(s);
    MergeJoins(t, s);
    GluedMergeBytes(t, Lines(s), k, rest);
    AppendedWellFormed(t, t.keys, Matched(t, Lines(s)));
    assert rest == Missing(t, s)[1..];
    GluedWellFormed(t, Lines(s), k, rest);
    LinesJoin(GluedLines(t, Lines(s), k, rest));
  }

  lemma AppendedRest(t: Table, i: nat, written: set<string>)
    requires ValidTable(t) && Independent(t.keys) && i < |t.keys|
    ensures RewriteAll(t, Appended(t, t.keys[i + 1..], written)) == Appended(t, t.keys[i + 1..], written)
    ensures t.keys[i] !in Matched(t, Appended(t, t.keys[i + 1..], written))
  {
    var rest := Appended(t, t.keys[i + 1..], written);
    forall j | 0 <= j < |rest|
      ensures Rewrite(t, rest[j]) == rest[j] && KeyOf(rest[j]) != Some(t.keys[i])
    {
      AppendedIsEntry(t, t.keys[i + 1..], written, rest[j]);
    }
    assert RewriteAll(t, rest) == rest;
  }

  lemma {:induction false} GluedLinesFixed(t: Table, ls: seq<Line>, k: string, rest: seq<Line>)
    requires ValidTable(t) && ls != [] && k in t.values
    requires !Replaces(t, Line(ls[|ls| - 1].text + Entry(k, t.values[k]).text, true))
    requires RewriteAll(t, rest) == rest
    ensures RewriteAll(t, GluedLines(t, ls, k, rest)) == GluedLines(t, ls, k, rest)
  {
    var n := |ls| - 1;
    var g := [Line(ls[n].text + Entry(k, t.values[k]).text, true)];
    assert RewriteAll(t, g) == g;
    RewriteTwice(t, ls[..n]);
    RewriteConcat(t, g, rest);
    RewriteConcat(t, RewriteAll(t, ls[..n]), g + rest);
  }

  lemma {:induction false} GluedLinesLack(t: Table, ls: seq<Line>, k: string, rest: seq<Line>)
    requires ValidTable(t) && ls != [] && k in t.values
    requires !Replaces(t, Line(ls[|ls| - 1].text + Entry(k, t.values[k]).text, true))
    requires k !in Matched(t, ls) && k !in Matched(t, rest)
    ensures k !in Matched(t, GluedLines(t, ls, k, rest))
  {
    var n := |ls| - 1;
    var g := Line(ls[n].text + Entry(k, t.values[k]).text, true);
    MatchedInit(t, ls);
    MatchedRewrite(t, ls[..n]);
    MatchedParts(t, RewriteAll(t, ls[..n]), g, rest, k);
  }

  lemma {:induction false} MatchedInit(t: Table, ls: seq<Line>)
    requires ls != []
    ensures Matched(t, ls[..|ls| - 1]) <= Matched(t, ls)
  {
    assert ls == ls[..|ls| - 1] + [ls[|ls| - 1]];
    MatchedConcat(t, ls[..|ls| - 1], [ls[|ls| - 1]]);
  }

  lemma {:induction false} MatchedParts(t: Table, init: seq<Line>, g: Line, rest: seq<Line>, k: string)
    requires k !in Matched(t, init) && !Replaces(t, g) && k !in Matched(t, rest)
    ensures k !in Matched(t, init + ([g] + rest))
  {
    assert Matched(t, [g]) == {};
    MatchedConcat(t, [g], rest);
    MatchedConcat(t, init, [g] + rest);
  }

  /**
   In a glued merge the first appended key has no line of its own, and every line is either an entry
   of the table or a line that no update concerns.
   */
  lemma GluedMergeKeys(t: Table, s: string) returns (k: string)
    requires ValidTable(t) && Independent(t.keys) && Glued(t, s)
    ensures k in t.values && k in t.keys && Missing(t, s)[0] == Entry(k, t.values[k])
    ensures RewriteAll(t, Lines(Merge(t, s))) == Lines(Merge(t, s))
    ensures k !in Matched(t, Lines(Merge(t, s)))
  {
    var ls := Lines(s);
    var w := Matched(t, ls);
    var i := FirstAppended(t, t.keys, w);
    k := t.keys[i];
    var rest := Appended(t, t.keys[i + 1..], w);
    GluedMergeLines(t, s, k, rest);
    AppendedRest(t, i, w);
    assert ls[|ls| - 1].text != "" by { JoinLines(s); }
    GluedLineKey(t, ls[|ls| - 1], k);
    GluedLinesFixed(t, ls, k, rest);
    GluedLinesLack(t, ls, k, rest);
  }

  lemma {:induction false} RewriteConcat(t: Table, a: seq<Line>, b: seq<Line>)
    ensures RewriteAll(t, a + b) == RewriteAll(t, a) + RewriteAll(t, b)
  {
  }

  lemma {:induction false} RewriteTwice(t: Table, ls: seq<Line>)
    requires ValidTable(t)
    ensures RewriteAll(t, RewriteAll(t, ls)) == RewriteAll(t, ls)
  {
    if ls != [] {
      RewriteTwice(t, ls[1..]);
      RewriteKeepsKey(t, ls[0]);
    }
  }

  lemma {:induction false} MergeOfFixedLines(t: Table, m: string)
    requires RewriteAll(t, Lines(m)) == Lines(m)
    ensures Merge(t, m) == m + Join(Missing(t, m))
  {
    JoinLines(m);
    assert {} + Matched(t, Lines(m)) == Matched(t, Lines(m));
  }

  lemma GluedMergeGrows(t: Table, s: string)
    requires ValidTable(t) && Independent(t.keys) && Glued(t, s)
    ensures |Merge(t, Merge(t, s))| > |Merge(t, s)|
  {
    var k := GluedMergeKeys(t, s);
    var m := Merge(t, s);
    MergeOfFixedLines(t, m);
    AppendedHas(t, t.keys, Matched(t, Lines(m)), k);
    var again := Missing(t, m);
    AppendedWellFormed(t, t.keys, Matched(t, Lines(m)));
    assert again[0] in again;
    assert |Join(again)| > 0;
  }

  /**
   Merging the same updates a second time changes nothing, exactly when the first merge glued nothing.
   */
  lemma MergeIdempotentIff(t: Table, s: string)
    requires ValidTable(t) && Independent(t.keys)
    ensures Merge(t, Merge(t, s)) == Merge(t, s) <==> !Glued(t, s)
  {
    if Glued(t, s) {
      GluedMergeGrows(t, s);
    } else {
      MergeTwice(t, s);
    }
  }

  // ---------------------------------------------------------------- lookup

  datatype Lookup = Found(value: string) | NotFound | InvalidArg

  /** A line the lookup of `key` stops at: it starts with `key=` and something follows. */
  predicate Holds(l: Line, key: string) {
    var c := StripCr(l.text);
    |c| > |key| + 1 && key + "=" <= c
  }

  /** A value handed back through a buffer of `size` bytes, terminator included. */
  function Fit(value: string, size: nat): Lookup {
    if |value| >= size then InvalidArg else Found(value)
  }

  function FindIn(ls: seq<Line>, key: string, size: nat): Lookup {
    if ls == [] then NotFound
    else if Holds(ls[0], key) then Fit(StripCr(ls[0].text)[|key| + 1..], size)
    else FindIn(ls[1..], key, size)
  }

  function LookUp(text: string, key: string, size: nat): Lookup {
    if size == 0 then InvalidArg else FindIn(Lines(text), key, size)
  }

  /** What the lookup makes of a line `key=value`. */
  function ReadBack(value: string, size: nat): Lookup {
    if size == 0 then InvalidArg
    else if StripCr(value) == "" then NotFound
    else Fit(StripCr(value), size)
  }

  /** The line begins, its CR dropped, with the key and '=', and something follows. */
  predicate Answers(l: Line, key: string) {
    key + "=" < StripCr(l.text)
  }

  /** A lookup gives what follows the key on the first line that answers it, if that fits the buffer with its end. */
  lemma {:induction false} LookUpIsFirst(text: string, key: string, size: nat, i: nat)
    requires size > 0 && i <= |Lines(text)| && forall j :: 0 <= j < i ==> !Answers(Lines(text)[j], key)
    requires i < |Lines(text)| ==> Answers(Lines(text)[i], key)
    ensures LookUp(text, key, size) ==
      if i == |Lines(text)| then NotFound
      else
        var v := StripCr(Lines(text)[i].text)[|key| + 1..];
        if |v| < size then Found(v) else InvalidArg
  {
    FindInFirst(Lines(text), key, size, i);
  }

  lemma {:induction false} FindInFirst(ls: seq<Line>, key: string, size: nat, i: nat)
    requires i <= |ls| && forall j :: 0 <= j < i ==> !Answers(ls[j], key)
    requires i < |ls| ==> Answers(ls[i], key)
    ensures FindIn(ls, key, size) ==
      if i == |ls| then NotFound
      else
        var v := StripCr(ls[i].text)[|key| + 1..];
        if |v| < size then Found(v) else InvalidArg
  {
    if i > 0 {
      assert !Answers(ls[0], key);
      FindInFirst(ls[1..], key, size, i - 1);
    }
  }

  lemma HoldsIff(l: Line, key: string)
    requires '=' !in key
    ensures Holds(l, key) <==> KeyOf(l) == Some(key) && ValueOf(l) != ""
    ensures Holds(l, key) ==> StripCr(l.text)[|key| + 1..] == ValueOf(l)
  {
    var c := StripCr(l.text);
    if key + "=" <= c {
      KeyFromPrefix(l, key);
    }
  }

  lemma {:induction false} FindConcat(a: seq<Line>, b: seq<Line>, key: string, size: nat)
    requires forall l :: l in a ==> !Holds(l, key)
    ensures FindIn(a + b, key, size) == FindIn(b, key, size)
  {
    if a == [] {
      assert a + b == b;
    } else {
      FindConcat(a[1..], b, key, size);
      assert (a + b)[1..] == a[1..] + b;
    }
  }

  lemma {:induction false} RewrittenFirst(t: Table, ls: seq<Line>, tail: seq<Line>)
    requires ls != []
    ensures RewriteAll(t, ls) + tail == [Rewrite(t, ls[0])] + (RewriteAll(t, ls[1..]) + tail)
  {
    assert ls == [ls[0]] + ls[1..];
    RewriteConcat(t, [ls[0]], ls[1..]);
    RewriteOne(t, ls[0]);
    Associate([Rewrite(t, ls[0])], RewriteAll(t, ls[1..]), tail);
  }

  lemma {:induction false} FindFirst(l: Line, rest: seq<Line>, key: string, size: nat)
    ensures FindIn([l] + rest, key, size)
            == if Holds(l, key) then FindIn([l], key, size) else FindIn(rest, key, size)
  {
    assert ([l] + rest)[1..] == rest && [l][0] == l;
  }

  /** Lines of other keys around it do not change what a lookup finds. */
  lemma {:induction false} FindRewritten(t: Table, ls: seq<Line>, tail: seq<Line>, key: string, size: nat)
    requires ValidTable(t) && '=' !in key && key !in t.values
    requires forall l :: l in tail ==> !Holds(l, key)
    ensures FindIn(RewriteAll(t, ls) + tail, key, size) == FindIn(ls, key, size)
  {
    if ls == [] {
      FindConcat(tail, [], key, size);
      assert RewriteAll(t, ls) + tail == tail && tail + [] == tail;
    } else {
      var rest := RewriteAll(t, ls[1..]) + tail;
      FindRewritten(t, ls[1..], tail, key, size);
      RewriteKeepsKey(t, ls[0]);
      HoldsIff(ls[0], key);
      HoldsIff(Rewrite(t, ls[0]), key);
      RewrittenFirst(t, ls, tail);
      FindFirst(Rewrite(t, ls[0]), rest, key, size);
      FindFirst(ls[0], ls[1..], key, size);
      assert ls == [ls[0]] + ls[1..];
    }
  }

  /** When all lines of a key say the same, the lookup says so too. */
  lemma {:induction false} FindUniform(t: Table, ls: seq<Line>, key: string, size: nat)
    requires ValidTable(t) && key in t.values && size > 0
    requires forall l :: l in ls && KeyOf(l) == Some(key) ==> l == Entry(key, t.values[key])
    ensures FindIn(ls, key, size)
         == if key in Matched(t, ls) then ReadBack(t.values[key], size) else NotFound
  {
    if ls != [] {
      HoldsIff(ls[0], key);
      EntryKey(key, t.values[key]);
      FindUniform(t, ls[1..], key, size);
      assert ls[0] in ls;
    }
  }

  /**
   Reading after a merge that glued nothing: an updated key has its new value, every other key reads
   as before.
   */
  lemma LookUpAfterMerge(t: Table, s: string, key: string, size: nat)
    requires ValidTable(t) && '=' !in key && !Glued(t, s)
    ensures LookUp(Merge(t, s), key, size)
         == if key in t.values then ReadBack(t.values[key], size) else LookUp(s, key, size)
  {
    MergeLines(t, s);
    if size > 0 && key in t.values {
      forall l | l in MergedLines(t, s) && KeyOf(l) == Some(key)
        ensures l == Entry(key, t.values[key])
      {
        MergedLineIsEntry(t, s, l);
      }
      UpdatedKeyOccurs(t, s, key);
      FindUniform(t, MergedLines(t, s), key, size);
    } else if size > 0 {
      forall l | l in Missing(t, s)
        ensures !Holds(l, key)
      {
        AppendedIsEntry(t, t.keys, Matched(t, Lines(s)), l);
        HoldsIff(l, key);
      }
      FindRewritten(t, Lines(s), Missing(t, s), key, size);
    }
  }

  /** Values a later lookup can see: something is left once a trailing CR is dropped. */
  ghost predicate Readable(t: Table) {
    forall k :: k in t.values ==> StripCr(t.values[k]) != ""
  }

  /** Every update can be read back after the merge exactly when the merge glued nothing. */
  lemma UpdatesReadBackIff(t: Table, s: string, size: nat)
    requires ValidTable(t) && Independent(t.keys) && Readable(t) && size > 0
    ensures (forall k :: k in t.values ==> LookUp(Merge(t, s), k, size) == ReadBack(t.values[k], size))
       <==> !Glued(t, s)
  {
    if Glued(t, s) {
      var k := GluedMergeKeys(t, s);
      FindUniform(t, Lines(Merge(t, s)), k, size);
      assert LookUp(Merge(t, s), k, size) != ReadBack(t.values[k], size);
    } else {
      forall k | k in t.values
        ensures LookUp(Merge(t, s), k, size) == ReadBack(t.values[k], size)
      {
        LookUpAfterMerge(t, s, k, size);
      }
    }
  }

  // ---------------------------------------------------------------- lookup after a merge that glued

  /** The line that a merge glues: the last line of the text with the first appended entry behind it. */
  function GluedLine(t: Table, s: string): Line
    requires Glued(t, s)
  {
    Line(Lines(s)[|Lines(s)| - 1].text + Missing(t, s)[0].text, true)
  }

  /** No line before the last one answers a lookup of the key. */
  predicate FirstInLast(s: string, key: string) {
    var ls := Lines(s);
    ls != [] && forall l :: l in ls[..|ls| - 1] ==> !Holds(l, key)
  }

  lemma {:induction false} FindNone(ls: seq<Line>, key: string, size: nat)
    ensures FindIn(ls, key, size) == NotFound <==> forall l :: l in ls ==> !Holds(l, key)
  {
    if ls != [] {
      FindNone(ls[1..], key, size);
      assert forall l :: l in ls <==> l == ls[0] || l in ls[1..];
    }
  }

  /** A lookup goes on behind lines that do not answer it. */
  lemma {:induction false} FindAppend(a: seq<Line>, b: seq<Line>, key: string, size: nat)
    ensures FindIn(a + b, key, size)
         == if FindIn(a, key, size) != NotFound then FindIn(a, key, size) else FindIn(b, key, size)
  {
    if a == [] {
      assert a + b == b;
    } else {
      FindAppend(a[1..], b, key, size);
      assert a + b == [a[0]] + (a[1..] + b);
    }
  }

  /** What the glued line and the entries behind it answer to a lookup of another key. */
  lemma {:induction false} FindGluedTail(g: Line, rest: seq<Line>, key: string, size: nat)
    requires forall l :: l in rest ==> !Holds(l, key)
    ensures FindIn([g] + rest, key, size) == FindIn([g], key, size)
  {
    FindConcat(rest, [], key, size);
    assert rest + [] == rest;
    FindFirst(g, rest, key, size);
    FindFirst(g, [], key, size);
    assert [g] + [] == [g];
  }

  lemma {:induction false} FindGlued(t: Table, init: seq<Line>, l: Line, g: Line, rest: seq<Line>,
      key: string, size: nat)
    requires ValidTable(t) && '=' !in key && key !in t.values
    requires forall e :: e in rest ==> !Holds(e, key)
    ensures FindIn(RewriteAll(t, init) + ([g] + rest), key, size)
         == if FindIn(init, key, size) != NotFound then FindIn(init + [l], key, size) else FindIn([g], key, size)
  {
    FindRewritten(t, init, [], key, size);
    assert RewriteAll(t, init) + [] == RewriteAll(t, init);
    FindAppend(RewriteAll(t, init), [g] + rest, key, size);
    FindGluedTail(g, rest, key, size);
    FindAppend(init, [l], key, size);
  }

  /** The key of the glued line is that of the last line if it has one, and its value is longer then. */
  lemma GluedLineReads(l: Line, k: string, v: string)
    requires l.text != "" && k != "" && '=' !in k
    ensures var g := Line(l.text + (k + "=" + v), true);
      && KeyOf(g) == (if KeyOf(l).Some? then KeyOf(l) else Some(l.text + k))
      && (KeyOf(l).Some? ==> |ValueOf(g)| > |ValueOf(l)|)
  {
    var g := Line(l.text + (k + "=" + v), true);
    assert g.text == l.text + k + "=" + v;
    StripCrKeeps(l.text + k + "=", v);
    HasKeyIff(l);
    if KeyOf(l).Some? {
      KeyFromPrefix(g, KeyOf(l).value);
    } else {
      KeyFromPrefix(g, l.text + k);
    }
  }

  /** What a lookup of another key finds in one line, and in that line when an entry is glued to it. */
  lemma {:induction false} GluedAnswers(l: Line, g: Line, key: string, size: nat)
    requires '=' !in key && size > 0
    requires KeyOf(g).Some? && (KeyOf(l).Some? ==> KeyOf(g) == KeyOf(l) && |ValueOf(g)| > |ValueOf(l)|)
    ensures FindIn([g], key, size) == (if KeyOf(g) == Some(key) && ValueOf(g) != "" then Fit(ValueOf(g), size)
                                       else NotFound)
    ensures FindIn([g], key, size) != FindIn([l], key, size) <==>
      KeyOf(g) == Some(key) && ValueOf(g) != "" && FindIn([l], key, size) != InvalidArg
  {
    HoldsIff(g, key);
    HoldsIff(l, key);
    assert [g][1..] == [] && [l][1..] == [];
  }

  /** A glued merge, taken apart: everything before the last line, the glued line, and the other entries. */
  lemma GluedParted(t: Table, s: string) returns (rest: seq<Line>)
    requires ValidTable(t) && Independent(t.keys) && Glued(t, s)
    ensures var ls := Lines(s);
      && Lines(Merge(t, s)) == RewriteAll(t, ls[..|ls| - 1]) + ([GluedLine(t, s)] + rest)
      && Missing(t, s) == [Missing(t, s)[0]] + rest
    ensures exists k :: k in t.values && Missing(t, s)[0] == Entry(k, t.values[k])
  {
    var i := FirstAppended(t, t.keys, Matched(t, Lines(s)));
    rest := Appended(t, t.keys[i + 1..], Matched(t, Lines(s)));
    GluedMergeLines(t, s, t.keys[i], rest);
  }

  lemma MissingHoldsNoOther(t: Table, s: string, l: Line, key: string)
    requires ValidTable(t) && '=' !in key && key !in t.values && l in Missing(t, s)
    ensures !Holds(l, key)
  {
    AppendedIsEntry(t, t.keys, Matched(t, Lines(s)), l);
    HoldsIff(l, key);
  }

  /** What the glued line of a merge is to the last line of the text. */
  lemma {:induction false} GluedLineOf(t: Table, s: string)
    requires ValidTable(t) && Independent(t.keys) && Glued(t, s)
    ensures var l, g := Lines(s)[|Lines(s)| - 1], GluedLine(t, s);
      KeyOf(g).Some? && (KeyOf(l).Some? ==> KeyOf(g) == KeyOf(l) && |ValueOf(g)| > |ValueOf(l)|)
  {
    var ls := Lines(s);
    JoinLines(s);
    var rest := GluedParted(t, s);
    var k :| k in t.values && Missing(t, s)[0] == Entry(k, t.values[k]);
    GluedLineReads(ls[|ls| - 1], k, t.values[k]);
  }

  /** The same told by whether a line before the last one answers. */
  lemma {:induction false} FindGluedIff(t: Table, init: seq<Line>, l: Line, g: Line, rest: seq<Line>,
      key: string, size: nat)
    requires ValidTable(t) && '=' !in key && key !in t.values
    requires forall e :: e in rest ==> !Holds(e, key)
    ensures var first := forall e :: e in init ==> !Holds(e, key);
      && FindIn(RewriteAll(t, init) + ([g] + rest), key, size)
         == (if first then FindIn([g], key, size) else FindIn(init + [l], key, size))
      && (first ==> FindIn(init + [l], key, size) == FindIn([l], key, size))
  {
    FindNone(init, key, size);
    FindGlued(t, init, l, g, rest, key, size);
    FindAppend(init, [l], key, size);
  }

  /** When a lookup finds something else behind the glued line than before. */
  lemma {:induction false} GluedChangesIff(t: Table, init: seq<Line>, l: Line, g: Line, rest: seq<Line>,
      key: string, size: nat)
    requires ValidTable(t) && '=' !in key && key !in t.values && size > 0
    requires forall e :: e in rest ==> !Holds(e, key)
    requires KeyOf(g).Some? && (KeyOf(l).Some? ==> KeyOf(g) == KeyOf(l) && |ValueOf(g)| > |ValueOf(l)|)
    ensures var before, after := FindIn(init + [l], key, size), FindIn(RewriteAll(t, init) + ([g] + rest), key, size);
      && (after != before <==>
            && (forall e :: e in init ==> !Holds(e, key))
            && KeyOf(g) == Some(key) && ValueOf(g) != "" && before != InvalidArg)
      && (after != before ==> after == Fit(ValueOf(g), size))
  {
    FindGluedIff(t, init, l, g, rest, key, size);
    GluedAnswers(l, g, key, size);
  }

  lemma LinesChangeIff(t: Table, ls: seq<Line>, merged: seq<Line>, g: Line, rest: seq<Line>,
      key: string, size: nat)
    requires ValidTable(t) && '=' !in key && key !in t.values && size > 0 && ls != []
    requires merged == RewriteAll(t, ls[..|ls| - 1]) + ([g] + rest) && forall e :: e in rest ==> !Holds(e, key)
    requires var l := ls[|ls| - 1];
      KeyOf(g).Some? && (KeyOf(l).Some? ==> KeyOf(g) == KeyOf(l) && |ValueOf(g)| > |ValueOf(l)|)
    ensures FindIn(merged, key, size) != FindIn(ls, key, size) <==>
      && (forall e :: e in ls[..|ls| - 1] ==> !Holds(e, key))
      && KeyOf(g) == Some(key) && ValueOf(g) != "" && FindIn(ls, key, size) != InvalidArg
    ensures FindIn(merged, key, size) != FindIn(ls, key, size) ==> FindIn(merged, key, size) == Fit(ValueOf(g), size)
  {
    GluedChangesIff(t, ls[..|ls| - 1], ls[|ls| - 1], g, rest, key, size);
    assert ls == ls[..|ls| - 1] + [ls[|ls| - 1]];
  }

  lemma RestHoldsNoOther(t: Table, s: string, first: Line, rest: seq<Line>, key: string)
    requires ValidTable(t) && '=' !in key && key !in t.values && Missing(t, s) == [first] + rest
    ensures forall e :: e in rest ==> !Holds(e, key)
  {
    forall e | e in rest
      ensures !Holds(e, key)
    {
      assert e in [first] + rest;
      MissingHoldsNoOther(t, s, e, key);
    }
  }

  /**
   Which keys without an update read differently after a merge that glued: only the key of the glued line, that
   of the last line if it has one; only if no earlier line answers for it and something is left to read; and
   not if the value was too long for the caller's buffer anyway.
   */
  lemma OtherKeyChangesIff(t: Table, s: string, key: string, size: nat)
    requires ValidTable(t) && Independent(t.keys) && Glued(t, s) && '=' !in key && key !in t.values && size > 0
    ensures LookUp(Merge(t, s), key, size) != LookUp(s, key, size) <==>
      && FirstInLast(s, key) && KeyOf(GluedLine(t, s)) == Some(key) && ValueOf(GluedLine(t, s)) != ""
      && LookUp(s, key, size) != InvalidArg
    ensures LookUp(Merge(t, s), key, size) != LookUp(s, key, size) ==>
      LookUp(Merge(t, s), key, size) == Fit(ValueOf(GluedLine(t, s)), size)
  {
    var rest := GluedParted(t, s);
    RestHoldsNoOther(t, s, Missing(t, s)[0], rest, key);
    GluedLineOf(t, s);
    LinesChangeIff(t, Lines(s), Lines(Merge(t, s)), GluedLine(t, s), rest, key, size);
  }

  /** Of the updated keys, all but the glued one read as their new value; the glued one is not found. */
  lemma UpdatedAfterGlued(t: Table, s: string, key: string, size: nat)
    requires ValidTable(t) && Independent(t.keys) && Glued(t, s) && key in t.values && size > 0
    ensures LookUp(Merge(t, s), key, size)
         == if Missing(t, s)[0] == Entry(key, t.values[key]) then NotFound else ReadBack(t.values[key], size)
  {
    var lines := Lines(Merge(t, s));
    var k := GluedMergeKeys(t, s);
    forall l | l in lines && KeyOf(l) == Some(key)
      ensures l == Entry(key, t.values[key])
    {
      FixedIsEntry(t, lines, l);
    }
    FindUniform(t, lines, key, size);
    if Missing(t, s)[0] == Entry(key, t.values[key]) {
      GluedIsUnmatched(t, s, key);
    } else {
      NotGluedIsMatched(t, s, key);
    }
  }

  lemma {:induction false} FixedIsEntry(t: Table, ls: seq<Line>, l: Line)
    requires RewriteAll(t, ls) == ls && l in ls
    ensures Rewrite(t, l) == l
  {
    var i :| 0 <= i < |ls| && ls[i] == l;
    assert RewriteAll(t, ls)[i] == Rewrite(t, ls[i]);
  }

  /** A key that has a line before the last one, or among the appended ones behind the first, has one after. */
  lemma {:induction false} PartsMatched(t: Table, init: seq<Line>, g: Line, rest: seq<Line>, key: string)
    requires ValidTable(t) && key in t.values
    requires key in Matched(t, init) || Entry(key, t.values[key]) in rest
    ensures key in Matched(t, RewriteAll(t, init) + ([g] + rest))
  {
    var lines := RewriteAll(t, init) + ([g] + rest);
    if key in Matched(t, init) {
      var i :| 0 <= i < |init| && KeyOf(init[i]) == Some(key);
      RewriteKeepsKey(t, init[i]);
      assert lines[i] == Rewrite(t, init[i]);
    } else {
      var i :| 0 <= i < |rest| && rest[i] == Entry(key, t.values[key]);
      EntryKey(key, t.values[key]);
      assert lines[|init| + 1 + i] == rest[i];
    }
  }

  lemma {:induction false} MatchedOne(t: Table, l: Line)
    requires !Replaces(t, l)
    ensures Matched(t, [l]) == {}
  {
    assert [l][0] == l && Matched(t, [l][1..]) == {};
  }

  lemma {:induction false} MatchedBefore(t: Table, init: seq<Line>, last: Line)
    requires !Replaces(t, last)
    ensures Matched(t, init + [last]) == Matched(t, init)
  {
    MatchedConcat(t, init, [last]);
    MatchedOne(t, last);
  }

  lemma {:induction false} MatchedInitOnly(t: Table, ls: seq<Line>)
    requires ls != [] && !Replaces(t, ls[|ls| - 1])
    ensures Matched(t, ls) == Matched(t, ls[..|ls| - 1])
  {
    MatchedBefore(t, ls[..|ls| - 1], ls[|ls| - 1]);
    assert ls == ls[..|ls| - 1] + [ls[|ls| - 1]];
  }

  lemma {:induction false} NotFirstIsInRest(t: Table, s: string, first: Line, rest: seq<Line>, key: string)
    requires key in t.keys && key in t.values && Missing(t, s) == [first] + rest
    requires first != Entry(key, t.values[key]) && key !in Matched(t, Lines(s))
    ensures Entry(key, t.values[key]) in rest
  {
    AppendedHas(t, t.keys, Matched(t, Lines(s)), key);
    assert Entry(key, t.values[key]) in [first] + rest;
  }

  /** A key that is updated but is not the glued one still has a line of its own after the merge. */
  lemma {:induction false} NotGluedIsMatched(t: Table, s: string, key: string)
    requires ValidTable(t) && Independent(t.keys) && Glued(t, s) && key in t.values
    requires Missing(t, s)[0] != Entry(key, t.values[key])
    ensures key in Matched(t, Lines(Merge(t, s)))
  {
    var ls := Lines(s);
    var rest := GluedParted(t, s);
    if key !in Matched(t, ls) {
      NotFirstIsInRest(t, s, Missing(t, s)[0], rest, key);
    }
    MatchedInitOnly(t, ls);
    PartsMatched(t, ls[..|ls| - 1], GluedLine(t, s), rest, key);
  }

  lemma {:induction false} GluedIsUnmatched(t: Table, s: string, key: string)
    requires ValidTable(t) && Independent(t.keys) && Glued(t, s) && key in t.values
    requires Missing(t, s)[0] == Entry(key, t.values[key])
    ensures key !in Matched(t, Lines(Merge(t, s)))
  {
    var k := GluedMergeKeys(t, s);
    EntryKey(k, t.values[k]);
    EntryKey(key, t.values[key]);
  }

  // ---------------------------------------------------------------- parse

  /** Outcome of parsing an update body; on failure the table keeps what was read before the bad line. */
  datatype Parsed = Parsed(ok: bool, values: map<string, string>)

  /** A line the parser takes: no '=' at all, or an editable key with a value that fits its slot. */
  predicate Accepts(keys: seq<string>, l: Line) {
    KeyOf(l).Some? ==> KeyOf(l).value in keys && |ValueOf(l)| < VALUE_SIZE
  }

  /** What a line contributes to the table. */
  function Setting(l: Line): map<string, string> {
    if KeyOf(l).Some? then map[KeyOf(l).value := CString(ValueOf(l))] else map[]
  }

  function ParseLines(keys: seq<string>, ls: seq<Line>, values: map<string, string>): Parsed {
    if ls == [] then Parsed(true, values)
    else if !Accepts(keys, ls[0]) then Parsed(false, values)
    else ParseLines(keys, ls[1..], values + Setting(ls[0]))
  }

  /** An empty body is refused before the table is reset. */
  function Parse(keys: seq<string>, body: string, before: map<string, string>): Parsed {
    if body == "" then Parsed(false, before) else ParseLines(keys, Lines(body), map[])
  }

  /** The value of `key` in `ls` is the one on its last line. */
  ghost predicate LastValue(ls: seq<Line>, key: string, value: string) {
    exists i :: 0 <= i < |ls| && KeyOf(ls[i]) == Some(key) && CString(ValueOf(ls[i])) == value
                && forall j :: i < j < |ls| ==> KeyOf(ls[j]) != Some(key)
  }

  ghost predicate HasKey(ls: seq<Line>, key: string) {
    exists i :: 0 <= i < |ls| && KeyOf(ls[i]) == Some(key)
  }

  lemma {:induction false} ParseLinesBase(keys: seq<string>, ls: seq<Line>, values: map<string, string>)
    ensures ParseLines(keys, ls, values).ok == ParseLines(keys, ls, map[]).ok
    ensures ParseLines(keys, ls, values).values == values + ParseLines(keys, ls, map[]).values
  {
    if ls != [] && Accepts(keys, ls[0]) {
      var m := Setting(ls[0]);
      ParseLinesBase(keys, ls[1..], values + m);
      ParseLinesBase(keys, ls[1..], map[] + m);
      MapPlus(values, m, ParseLines(keys, ls[1..], map[]).values);
      assert map[] + m == m;
    }
  }

  lemma MapPlus(a: map<string, string>, b: map<string, string>, c: map<string, string>)
    ensures (a + b) + c == a + (b + c)
  {
  }

  /** The lines parse exactly when each of them is acceptable. */
  lemma {:induction false} AllAccepted(keys: seq<string>, ls: seq<Line>)
    ensures ParseLines(keys, ls, map[]).ok <==> forall l :: l in ls ==> Accepts(keys, l)
  {
    if ls != [] {
      AllAccepted(keys, ls[1..]);
      ParseLinesBase(keys, ls[1..], map[] + Setting(ls[0]));
      assert ls == [ls[0]] + ls[1..];
    }
  }

  /** Once its CR is dropped the line begins with one of the keys and '=', and fewer than 128 bytes follow. */
  predicate SetsKey(keys: seq<string>, l: Line) {
    exists k :: k in keys && k + "=" <= StripCr(l.text) && |StripCr(l.text)| - |k| - 1 < 128
  }

  lemma AcceptsIff(keys: seq<string>, l: Line)
    requires forall k :: k in keys ==> '=' !in k
    ensures Accepts(keys, l) <==> ('=' in l.text ==> SetsKey(keys, l))
  {
    HasKeyIff(l);
    if KeyOf(l).Some? {
      KeyOfStarts(l);
    }
    if SetsKey(keys, l) {
      var k :| k in keys && k + "=" <= StripCr(l.text) && |StripCr(l.text)| - |k| - 1 < 128;
      KeyFromPrefix(l, k);
      KeyOfStarts(l);
    }
  }

  lemma KeyOfStarts(l: Line)
    requires KeyOf(l).Some?
    ensures KeyOf(l).value + "=" <= StripCr(l.text)
    ensures |ValueOf(l)| == |StripCr(l.text)| - |KeyOf(l).value| - 1
  {
    var c := StripCr(l.text);
    var e := IndexOf(c, '=');
    assert c[..e + 1] == c[..e] + [c[e]];
  }

  /**
   A body is accepted exactly if it is not empty and each of its lines has no '=' at all, or sets one of the keys
   to a value of fewer than 128 bytes.
   */
  lemma {:induction false} ParseOkIff(keys: seq<string>, body: string, before: map<string, string>)
    requires forall k :: k in keys ==> '=' !in k
    ensures Parse(keys, body, before).ok <==>
      body != "" && forall l :: l in Lines(body) ==> ('=' in l.text ==> SetsKey(keys, l))
  {
    AllAccepted(keys, Lines(body));
    forall l | l in Lines(body)
      ensures Accepts(keys, l) <==> ('=' in l.text ==> SetsKey(keys, l))
    {
      AcceptsIff(keys, l);
    }
  }

  /** A line without '=', such as a blank one, is skipped: with it and without it the lines parse to the same. */
  lemma {:induction false} OtherLinesAreSkipped(keys: seq<string>, a: seq<Line>, l: Line, b: seq<Line>,
      values: map<string, string>)
    requires '=' !in l.text
    ensures ParseLines(keys, a + [l] + b, values) == ParseLines(keys, a + b, values)
  {
    if a == [] {
      HasKeyIff(l);
      assert a + [l] + b == [l] + b && a + b == b && ([l] + b)[1..] == b;
      assert values + Setting(l) == values;
    } else {
      assert a + [l] + b == [a[0]] + (a[1..] + [l] + b) && a + b == [a[0]] + (a[1..] + b);
      OtherLinesAreSkipped(keys, a[1..], l, b, values + Setting(a[0]));
    }
  }

  /** The parsed table maps each key that occurs to the value on its last line, and nothing else. */
  lemma {:induction false} ParseLastWins(keys: seq<string>, ls: seq<Line>, k: string)
    requires ParseLines(keys, ls, map[]).ok
    ensures var m := ParseLines(keys, ls, map[]).values;
            (k in m <==> HasKey(ls, k)) && (k in m ==> LastValue(ls, k, m[k]))
  {
    if ls != [] {
      var l, rest := ls[0], ls[1..];
      ParseLinesBase(keys, rest, map[] + Setting(l));
      ParseLastWins(keys, rest, k);
      ShiftHasKey(ls, k);
      var m := ParseLines(keys, rest, map[]).values;
      ShiftLastValue(ls, k, if k in m then m[k] else "");
    }
  }

  lemma ShiftHasKey(ls: seq<Line>, k: string)
    requires ls != []
    ensures HasKey(ls, k) <==> KeyOf(ls[0]) == Some(k) || HasKey(ls[1..], k)
  {
    var rest := ls[1..];
    if HasKey(rest, k) {
      var i :| 0 <= i < |rest| && KeyOf(rest[i]) == Some(k);
      assert KeyOf(ls[i + 1]) == Some(k);
    }
    if HasKey(ls, k) && KeyOf(ls[0]) != Some(k) {
      var i :| 0 <= i < |ls| && KeyOf(ls[i]) == Some(k);
      assert KeyOf(rest[i - 1]) == Some(k);
    }
  }

  lemma ShiftLastValue(ls: seq<Line>, k: string, v: string)
    requires ls != []
    ensures LastValue(ls[1..], k, v) ==> LastValue(ls, k, v)
    ensures KeyOf(ls[0]) == Some(k) && !HasKey(ls[1..], k) ==> LastValue(ls, k, CString(ValueOf(ls[0])))
  {
    var rest := ls[1..];
    if LastValue(rest, k, v) {
      var i :| 0 <= i < |rest| && KeyOf(rest[i]) == Some(k) && CString(ValueOf(rest[i])) == v
               && forall j :: i < j < |rest| ==> KeyOf(rest[j]) != Some(k);
      assert ls[i + 1] == rest[i];
      forall j | i + 1 < j < |ls| ensures KeyOf(ls[j]) != Some(k) {
        assert ls[j] == rest[j - 1];
      }
    }
    if KeyOf(ls[0]) == Some(k) && !HasKey(rest, k) {
      forall j | 0 < j < |ls| ensures KeyOf(ls[j]) != Some(k) {
        assert ls[j] == rest[j - 1];
      }
    }
  }

  /** The values of the table as a later parse reads them. */
  function Stripped(t: Table): map<string, string> {
    map k | k in t.values :: StripCr(t.values[k])
  }

  function Override(m: map<string, string>, u: map<string, string>): map<string, string> {
    map k | k in m :: if k in u then u[k] else m[k]
  }

  lemma CStringOfPlain(v: string)
    requires '\0' !in v
    ensures CString(v) == v
  {
    assert v[..|v|] == v;
    IndexOfUnique(v, '\0', |v|);
  }

  lemma EntrySetting(t: Table, k: string)
    requires ValidTable(t) && k in t.values
    ensures Accepts(t.keys, Entry(k, t.values[k]))
    ensures Setting(Entry(k, t.values[k])) == map[k := StripCr(t.values[k])]
  {
    EntryKey(k, t.values[k]);
    CStringOfPlain(StripCr(t.values[k]));
  }

  lemma {:induction false} ParseCons(keys: seq<string>, l: Line, rest: seq<Line>)
    requires Accepts(keys, l)
    ensures ParseLines(keys, [l] + rest, map[]).ok == ParseLines(keys, rest, map[]).ok
    ensures ParseLines(keys, [l] + rest, map[]).values == Setting(l) + ParseLines(keys, rest, map[]).values
  {
    ParseLinesBase(keys, rest, map[] + Setting(l));
    assert ([l] + rest)[1..] == rest && map[] + Setting(l) == Setting(l);
  }

  lemma {:induction false} ParseConcat(keys: seq<string>, a: seq<Line>, b: seq<Line>)
    requires ParseLines(keys, a, map[]).ok
    ensures ParseLines(keys, a + b, map[]).ok == ParseLines(keys, b, map[]).ok
    ensures ParseLines(keys, a + b, map[]).values
         == ParseLines(keys, a, map[]).values + ParseLines(keys, b, map[]).values
  {
    if a == [] {
      assert a + b == b;
      assert map[] + ParseLines(keys, b, map[]).values == ParseLines(keys, b, map[]).values;
    } else {
      var l, rest := a[0], a[1..];
      assert a == [l] + rest && a + b == [l] + (rest + b);
      ParseCons(keys, l, rest);
      ParseConcat(keys, rest, b);
      ParseCons(keys, l, rest + b);
      MapPlus(Setting(l), ParseLines(keys, rest, map[]).values, ParseLines(keys, b, map[]).values);
    }
  }

  lemma RewriteSetting(t: Table, l: Line)
    requires ValidTable(t) && Accepts(t.keys, l)
    ensures Accepts(t.keys, Rewrite(t, l))
    ensures Setting(Rewrite(t, l)) == Override(Setting(l), Stripped(t))
  {
    if Replaces(t, l) {
      EntrySetting(t, KeyOf(l).value);
    }
  }

  lemma {:induction false} ParseRewritten(t: Table, ls: seq<Line>)
    requires ValidTable(t) && ParseLines(t.keys, ls, map[]).ok
    ensures ParseLines(t.keys, RewriteAll(t, ls), map[])
         == Parsed(true, Override(ParseLines(t.keys, ls, map[]).values, Stripped(t)))
  {
    if ls != [] {
      var l, rest := ls[0], ls[1..];
      assert ls == [l] + rest;
      ParseCons(t.keys, l, rest);
      RewriteSetting(t, l);
      ParseCons(t.keys, Rewrite(t, l), RewriteAll(t, rest));
      ParseRewritten(t, rest);
      OverridePlus(Setting(l), ParseLines(t.keys, rest, map[]).values, Stripped(t));
    }
  }

  lemma OverridePlus(a: map<string, string>, b: map<string, string>, u: map<string, string>)
    ensures Override(a + b, u) == Override(a, u) + Override(b, u)
  {
  }

  /** The part of the table the appended lines carry. */
  function AppendedValues(t: Table, keys: seq<string>, written: set<string>): map<string, string> {
    map k | k in t.values && k in keys && k !in written :: StripCr(t.values[k])
  }

  lemma AppendedValuesStep(t: Table, k: string, rest: seq<string>, written: set<string>)
    ensures AppendedValues(t, [k] + rest, written)
         == (if k in t.values && k !in written then map[k := StripCr(t.values[k])] else map[])
            + AppendedValues(t, rest, written)
  {
  }

  lemma {:induction false} ParseAppended(t: Table, keys: seq<string>, written: set<string>)
    requires ValidTable(t)
    ensures ParseLines(t.keys, Appended(t, keys, written), map[])
         == Parsed(true, AppendedValues(t, keys, written))
  {
    if keys == [] {
      assert AppendedValues(t, keys, written) == map[];
    } else {
      var k, rest := keys[0], keys[1..];
      ParseAppended(t, rest, written);
      assert keys == [k] + rest;
      AppendedValuesStep(t, k, rest, written);
      if k in t.values && k !in written {
        EntrySetting(t, k);
        ParseCons(t.keys, Entry(k, t.values[k]), Appended(t, rest, written));
      } else {
        assert [] + Appended(t, rest, written) == Appended(t, rest, written);
        assert map[] + AppendedValues(t, rest, written) == AppendedValues(t, rest, written);
      }
    }
  }

  lemma OverrideThenAppend(t: Table, m: map<string, string>, written: set<string>)
    requires forall k :: k in t.values ==> k in t.keys && (k in written <==> k in m)
    ensures Override(m, Stripped(t)) + AppendedValues(t, t.keys, written) == m + Stripped(t)
  {
  }

  lemma {:induction false} MergedValues(t: Table, ls: seq<Line>)
    requires ValidTable(t) && ParseLines(t.keys, ls, map[]).ok
    ensures var m := ParseLines(t.keys, ls, map[]).values;
            Override(m, Stripped(t)) + AppendedValues(t, t.keys, Matched(t, ls)) == m + Stripped(t)
  {
    var m := ParseLines(t.keys, ls, map[]).values;
    forall k | k in t.values
      ensures k in Matched(t, ls) <==> k in m
    {
      ParseLastWins(t.keys, ls, k);
    }
    OverrideThenAppend(t, m, Matched(t, ls));
  }

  /** Parsing a merged text gives what the text parsed to before, overridden by the table. */
  lemma {:induction false} ParseAfterMerge(t: Table, s: string, before: map<string, string>)
    requires ValidTable(t) && !Glued(t, s)
    requires ParseLines(t.keys, Lines(s), map[]).ok && (s != "" || t.values != map[])
    ensures Parse(t.keys, Merge(t, s), before)
         == Parsed(true, ParseLines(t.keys, Lines(s), map[]).values + Stripped(t))
  {
    var ls := Lines(s);
    MergeLines(t, s);
    MergeNonEmpty(t, s);
    ParseRewritten(t, ls);
    ParseAppended(t, t.keys, Matched(t, ls));
    ParseConcat(t.keys, RewriteAll(t, ls), Missing(t, s));
    MergedValues(t, ls);
  }

  lemma MergeNonEmpty(t: Table, s: string)
    requires ValidTable(t) && !Glued(t, s) && (s != "" || t.values != map[])
    ensures Merge(t, s) != ""
  {
    MergeLines(t, s);
    JoinLines(s);
    if s == "" {
      var k :| k in t.values;
      AppendedHas(t, t.keys, {}, k);
      assert Matched(t, Lines(s)) == {};
      assert MergedLines(t, s) != [];
    }
  }

  /** Merging into an empty text and parsing it back gives the table, exactly when no value ends in CR. */
  lemma ParseUndoesMergeIff(t: Table, before: map<string, string>)
    requires ValidTable(t) && t.values != map[]
    ensures Parse(t.keys, Merge(t, ""), before) == Parsed(true, t.values)
       <==> forall k :: k in t.values ==> StripCr(t.values[k]) == t.values[k]
  {
    ParseAfterMerge(t, "", before);
    assert map[] + Stripped(t) == Stripped(t);
    if Stripped(t) == t.values {
      forall k | k in t.values ensures StripCr(t.values[k]) == t.values[k] {
        assert Stripped(t)[k] == t.values[k];
      }
    } else {
      assert exists k :: k in t.values && Stripped(t)[k] != t.values[k];
    }
  }

  /** A template: one line `key=value` for each key, with its text and its values. */
  function TemplateLines(ks: seq<string>, vs: seq<string>): seq<Line>
    requires |ks| == |vs|
  {
    if ks == [] then [] else [Entry(ks[0], vs[0])] + TemplateLines(ks[1..], vs[1..])
  }

  function TemplateText(ks: seq<string>, vs: seq<string>): string
    requires |ks| == |vs|
  {
    if ks == [] then "" else ks[0] + "=" + vs[0] + "\n" + TemplateText(ks[1..], vs[1..])
  }

  function TemplateValues(ks: seq<string>, vs: seq<string>): map<string, string>
    requires |ks| == |vs|
  {
    if ks == [] then map[] else map[ks[0] := vs[0]] + TemplateValues(ks[1..], vs[1..])
  }

  ghost predicate TemplateParts(keys: seq<string>, ks: seq<string>, vs: seq<string>) {
    && |ks| == |vs|
    && (forall k :: k in ks ==> PlainKey(k) && k in keys)
    && (forall v :: v in vs ==> Storable(v) && StripCr(v) == v)
  }

  lemma {:induction false} TemplateTextJoins(ks: seq<string>, vs: seq<string>)
    requires |ks| == |vs|
    ensures Join(TemplateLines(ks, vs)) == TemplateText(ks, vs)
  {
    if ks != [] {
      TemplateTextJoins(ks[1..], vs[1..]);
      var e, rest := Entry(ks[0], vs[0]), TemplateLines(ks[1..], vs[1..]);
      JoinConcat([e], rest);
      assert Join([e]) == e.text + "\n" + "";
    }
  }

  lemma {:induction false} TemplateWellFormed(keys: seq<string>, ks: seq<string>, vs: seq<string>)
    requires TemplateParts(keys, ks, vs)
    ensures WellFormed(TemplateLines(ks, vs))
    ensures forall l :: l in TemplateLines(ks, vs) ==> l.ended
  {
    if ks != [] {
      TemplateWellFormed(keys, ks[1..], vs[1..]);
      assert ks[0] in ks && vs[0] in vs;
      assert WellFormed([Entry(ks[0], vs[0])]);
      WellFormedConcat([Entry(ks[0], vs[0])], TemplateLines(ks[1..], vs[1..]));
    }
  }

  lemma {:induction false} TemplateParses(keys: seq<string>, ks: seq<string>, vs: seq<string>)
    requires TemplateParts(keys, ks, vs)
    ensures ParseLines(keys, TemplateLines(ks, vs), map[]) == Parsed(true, TemplateValues(ks, vs))
  {
    if ks != [] {
      TemplateParses(keys, ks[1..], vs[1..]);
      assert ks[0] in ks && vs[0] in vs;
      EntryKey(ks[0], vs[0]);
      CStringOfPlain(vs[0]);
      ParseCons(keys, Entry(ks[0], vs[0]), TemplateLines(ks[1..], vs[1..]));
    }
  }

  /** Merging a table into a template and parsing the result gives the template overridden by the table. */
  lemma {:induction false} ParseTemplateMerge(t: Table, ks: seq<string>, vs: seq<string>, before: map<string, string>)
    requires ValidTable(t) && TemplateParts(t.keys, ks, vs) && ks != []
    ensures Parse(t.keys, Merge(t, TemplateText(ks, vs)), before) == Parsed(true, TemplateValues(ks, vs) + Stripped(t))
  {
    var ls := TemplateLines(ks, vs);
    TemplateTextJoins(ks, vs);
    TemplateWellFormed(t.keys, ks, vs);
    TemplateParses(t.keys, ks, vs);
    LinesJoin(ls);
    assert ls[|ls| - 1] in ls;
    ParseAfterMerge(t, TemplateText(ks, vs), before);
  }

  lemma TextStep(ks: seq<string>, vs: seq<string>, i: nat)
    requires i < |ks| == |vs|
    ensures TemplateText(ks[i..], vs[i..]) == ks[i] + "=" + vs[i] + "\n" + TemplateText(ks[i + 1..], vs[i + 1..])
  {
    assert ks[i..][1..] == ks[i + 1..] && vs[i..][1..] == vs[i + 1..];
  }

  // ---------------------------------------------------------------- updating a file

  lemma {:induction false} ParsedTableIsValid(keys: seq<string>, ls: seq<Line>)
    requires (forall k :: k in keys ==> PlainKey(k)) && WellFormed(ls)
    ensures ValidTable(Table(keys, ParseLines(keys, ls, map[]).values))
  {
    if ls != [] && Accepts(keys, ls[0]) {
      assert ls == [ls[0]] + ls[1..];
      ParseCons(keys, ls[0], ls[1..]);
      ParsedTableIsValid(keys, ls[1..]);
    }
  }

  /**
   The new content of a configuration file after an update request with `body`; None when the request
   is refused, which covers an unusable body and a merge that produced no text at all.
   */
  function Update(keys: seq<string>, body: string, existing: string): Option<string> {
    var p := Parse(keys, body, map[]);
    if !p.ok || (existing == "" && p.values == map[]) then None
    else Some(Merge(Table(keys, p.values), existing))
  }

  /**
   After an accepted update that glued nothing, every key the body sets reads as the value on the
   body's last line for it, and every other key reads as before.
   */
  lemma {:induction false} UpdateThenLookUp(keys: seq<string>, body: string, existing: string, key: string, size: nat)
    requires (forall k :: k in keys ==> PlainKey(k)) && '=' !in key && size > 0
    requires Update(keys, body, existing).Some?
    requires !Glued(Table(keys, Parse(keys, body, map[]).values), existing)
    ensures var r := LookUp(Update(keys, body, existing).value, key, size);
            if HasKey(Lines(body), key)
            then exists v :: LastValue(Lines(body), key, v) && r == ReadBack(v, size)
            else r == LookUp(existing, key, size)
  {
    JoinLines(body);
    ParsedTableIsValid(keys, Lines(body));
    LookUpAfterMerge(Table(keys, Parse(keys, body, map[]).values), existing, key, size);
    ParseLastWins(keys, Lines(body), key);
  }

  /** Sending the same accepted update again leaves the file alone exactly when the first one glued nothing. */
  lemma UpdateTwiceIff(keys: seq<string>, body: string, existing: string)
    requires (forall k :: k in keys ==> PlainKey(k)) && Independent(keys)
    requires Update(keys, body, existing).Some?
    ensures Update(keys, body, Update(keys, body, existing).value) == Update(keys, body, existing)
       <==> !Glued(Table(keys, Parse(keys, body, map[]).values), existing)
  {
    var t := Table(keys, Parse(keys, body, map[]).values);
    JoinLines(body);
    ParsedTableIsValid(keys, Lines(body));
    MergeIdempotentIff(t, existing);
    if Glued(t, existing) {
      GluedMergeGrows(t, existing);
    } else {
      MergeNonEmpty(t, existing);
    }
  }
}

/** The editable facility configuration: its keys, the blank template, and the update of a file. */
module FacilityConfig {
  import opened TextLines
  import opened ConfigText

  const EDITABLE_KEYS: seq<string> :=
    ["name", "currency", "energy_zone", "latitude", "longitude", "panel.tilt", "panel.azimuth", "panel.m2_size"]

  const BLANK_CONFIG: string :=
    "name=\n" +
    ("currency=SEK\n" +
    ("energy_zone=3\n" +
    ("latitude=0\n" +
    ("longitude=0\n" +
    ("panel.tilt=0\n" +
    ("panel.azimuth=0\n" +
     "panel.m2_size=0\n"))))))

  const BLANK_SETTINGS: seq<string> := ["", "SEK", "3", "0", "0", "0", "0", "0"]

  lemma PlainKeys()
    ensures forall k :: k in EDITABLE_KEYS ==> PlainKey(k)
  {
  }

  lemma DistinctKeys()
    ensures forall i :: 0 <= i < |EDITABLE_KEYS| ==> EDITABLE_KEYS[i] !in EDITABLE_KEYS[i + 1..]
  {
  }

  lemma NoKeyEndsInAnother(k: string, p: string)
    requires k in EDITABLE_KEYS && p != ""
    ensures p + k !in EDITABLE_KEYS
  {
    var g := p + k;
    assert g[|g| - 1] == k[|k| - 1] && g[|g| - 2] == k[|k| - 2] && g[|g| - 3] == k[|k| - 3] && g[|g| - 4] == k[|k| - 4];
    if |k| > 5 {
      assert g[|g| - 6] == k[|k| - 6];
    }
  }

  lemma EditableKeysAreIndependent()
    ensures Independent(EDITABLE_KEYS)
  {
    DistinctKeys();
    forall k, p | k in EDITABLE_KEYS && p != ""
      ensures p + k !in EDITABLE_KEYS
    {
      NoKeyEndsInAnother(k, p);
    }
  }

  /** One line of the template, in front of the others. */
  lemma BlankLine(ks: seq<string>, vs: seq<string>, i: nat, k: string, v: string, line: string)
    requires i < |ks| == |vs| && ks[i] == k && vs[i] == v && line == k + "=" + v + "\n"
    ensures TemplateText(ks[i..], vs[i..]) == line + TemplateText(ks[i + 1..], vs[i + 1..])
  {
    TextStep(ks, vs, i);
  }

  lemma BlankTail(ks: seq<string>, vs: seq<string>)
    requires |ks| == |vs| == 8
    requires ks[4] == "longitude" && ks[5] == "panel.tilt" && ks[6] == "panel.azimuth" && ks[7] == "panel.m2_size"
    requires vs[4] == "0" && vs[5] == "0" && vs[6] == "0" && vs[7] == "0"
    ensures TemplateText(ks[4..], vs[4..])
         == "longitude=0\n" + ("panel.tilt=0\n" + ("panel.azimuth=0\n" + "panel.m2_size=0\n"))
  {
    BlankLine(ks, vs, 4, "longitude", "0", "longitude=0\n");
    BlankLine(ks, vs, 5, "panel.tilt", "0", "panel.tilt=0\n");
    BlankLine(ks, vs, 6, "panel.azimuth", "0", "panel.azimuth=0\n");
    BlankLine(ks, vs, 7, "panel.m2_size", "0", "panel.m2_size=0\n");
    assert TemplateText(ks[8..], vs[8..]) == "";
    assert "panel.m2_size=0\n" + "" == "panel.m2_size=0\n";
  }

  lemma BlankMiddle(ks: seq<string>, vs: seq<string>)
    requires |ks| == |vs| >= 4
    requires ks[2] == "energy_zone" && ks[3] == "latitude" && vs[2] == "3" && vs[3] == "0"
    ensures TemplateText(ks[2..], vs[2..]) == "energy_zone=3\n" + ("latitude=0\n" + TemplateText(ks[4..], vs[4..]))
  {
    BlankLine(ks, vs, 2, "energy_zone", "3", "energy_zone=3\n");
    BlankLine(ks, vs, 3, "latitude", "0", "latitude=0\n");
  }

  lemma BlankHead(ks: seq<string>, vs: seq<string>)
    requires |ks| == |vs| >= 2 && ks[0] == "name" && vs[0] == "" && ks[1] == "currency" && vs[1] == "SEK"
    ensures TemplateText(ks[0..], vs[0..]) == "name=\n" + ("currency=SEK\n" + TemplateText(ks[2..], vs[2..]))
  {
    BlankLine(ks, vs, 0, "name", "", "name=\n");
    BlankLine(ks, vs, 1, "currency", "SEK", "currency=SEK\n");
  }

  /** The blank template has one line for each editable key. */
  lemma {:induction false} BlankConfigText(ks: seq<string>, vs: seq<string>)
    requires ks == EDITABLE_KEYS && vs == BLANK_SETTINGS
    ensures TemplateText(ks, vs) == BLANK_CONFIG
  {
    BlankTail(ks, vs);
    BlankMiddle(ks, vs);
    BlankHead(ks, vs);
    assert ks[0..] == ks && vs[0..] == vs;
  }

  lemma BlankParts(ks: seq<string>, vs: seq<string>)
    requires ks == EDITABLE_KEYS && vs == BLANK_SETTINGS
    ensures TemplateParts(ks, ks, vs) && ks != []
  {
    PlainKeys();
  }

  /** Merging updates into the blank template and parsing the result gives the template overridden by them. */
  lemma TemplateOverridden(t: Table, before: map<string, string>)
    requires ValidTable(t) && t.keys == EDITABLE_KEYS
    ensures Parse(t.keys, Merge(t, BLANK_CONFIG), before)
         == Parsed(true, TemplateValues(EDITABLE_KEYS, BLANK_SETTINGS) + Stripped(t))
  {
    var vs := BLANK_SETTINGS;
    BlankParts(t.keys, vs);
    BlankConfigText(t.keys, vs);
    ParseTemplateMerge(t, t.keys, vs, before);
  }

  /** The update that only sets a name. */
  const NAMED: Table := Table(EDITABLE_KEYS, map["name" := "a"])

  lemma {:induction false} OneOpenLine(t: Table)
    ensures Lines("x") == [Line("x", false)] && !Replaces(t, Line("x", false)) && Matched(t, Lines("x")) == {}
    ensures RewriteAll(t, Lines("x")) == [Line("x", false)]
  {
    LinesOfOpenLine("x");
    IndexOfUnique("x", '=', 1);
    assert KeyOf(Line("x", false)).None?;
  }

  lemma {:induction false} OneMissing(t: Table, rest: seq<string>)
    requires t.keys == ["name"] + rest && t.values == map["name" := "a"] && "name" !in rest
    ensures Appended(t, t.keys, {}) == [Entry("name", "a")]
  {
    assert t.keys[1..] == rest;
    AppendedNone(t, rest, {});
  }

  lemma {:induction false} OneGlued(t: Table, s: string)
    requires Appended(t, t.keys, {}) == [Entry("name", "a")] && s == "x"
    ensures Glued(t, s) && Merge(t, s) == "xname=a\n"
  {
    OneOpenLine(t);
    MergeJoins(t, s);
    JoinFirst(Line("x", false), [Entry("name", "a")]);
    JoinFirst(Entry("name", "a"), []);
    assert MergedLines(t, s) == [Line("x", false)] + [Entry("name", "a")];
    assert Raw(Line("x", false)) == "x" && Raw(Entry("name", "a")) == "name=a" + "\n";
    assert "x" + ("name=a" + "\n") == "xname=a\n";
  }

  lemma NamedIsValid(t: Table)
    requires t.keys == EDITABLE_KEYS && t.values == map["name" := "a"]
    ensures ValidTable(t) && t.keys == ["name"] + t.keys[1..] && "name" !in t.keys[1..]
  {
    PlainKeys();
    DistinctKeys();
    assert EDITABLE_KEYS[0] == "name";
    assert Storable("a");
  }

  /** An update that glues: the name ends up in a line `xname=a`, and the same update then writes it again. */
  lemma NameIsGlued(t: Table, s: string)
    requires t == NAMED && s == "x"
    ensures ValidTable(t) && Glued(t, s) && Merge(t, s) == "xname=a\n" && Merge(t, Merge(t, s)) != Merge(t, s)
  {
    NamedIsValid(t);
    OneMissing(t, t.keys[1..]);
    OneGlued(t, s);
    EditableKeysAreIndependent();
    MergeIdempotentIff(t, s);
  }
}
