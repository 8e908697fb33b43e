/** The growing text buffer the configuration functions write into. */
module GrowingText {
  import opened Doubling

  const FIRST_CAPACITY := 512

  class TextBuffer {
    var chars: array?<char>
    var used: nat
    var capacity: nat
    ghost var requested: nat  // all bytes ever asked from realloc

    ghost predicate Valid()
      reads this, chars
    {
      if chars == null then used == 0 && capacity == 0 && requested == 0
      else
        && chars.Length == capacity
        && used + 1 <= capacity
        && chars[used] == '\0'
        && IsCapacity(512, capacity)
        && (capacity == 512 || capacity < 2 * (used + 1))
        && requested <= 2 * capacity - 512
    }

    ghost function Text(): string
      reads this, chars
      requires Valid()
    {
      if chars == null then "" else chars[..used]
    }

    constructor ()
      ensures Valid() && chars == null && Text() == ""
    {
      chars, used, capacity, requested := null, 0, 0, 0;
    }

    /** Appends `text`; afterwards there is a buffer, even for an empty text. */
    method Append(text: string)
      requires Valid()
      modifies this, chars
      ensures Valid() && chars != null && (chars == old(chars) || fresh(chars))
      ensures Text() == old(Text()) + text
      ensures requested < 512 + 4 * |Text()| + 4
    {
      if chars == null || capacity < used + |text| + 1 {
        var newCapacity := if capacity == 0 then FIRST_CAPACITY else capacity;
        while newCapacity < used + |text| + 1
          invariant IsCapacity(FIRST_CAPACITY, newCapacity)
          invariant capacity <= newCapacity
          invariant capacity < newCapacity ==> 2 * capacity <= newCapacity
          invariant newCapacity == FIRST_CAPACITY || newCapacity == capacity || newCapacity < 2 * (used + |text| + 1)
        {
          newCapacity := newCapacity * 2;
        }
        Reallocate(newCapacity);
      }
      Copy(text);
    }

    /** realloc: a buffer of the new size that starts with the old bytes. */
    method Reallocate(newCapacity: nat)
      requires Valid() && newCapacity > used && newCapacity >= capacity
      modifies this
      ensures chars != null && fresh(chars) && chars.Length == newCapacity == capacity
      ensures used == old(used) && chars[..used] == old(Text())
      ensures requested == old(requested) + newCapacity
    {
      var newChars := new char[newCapacity];
      if chars != null {
        forall i | 0 <= i < capacity {
          newChars[i] := chars[i];
        }
      }
      chars, capacity, requested := newChars, newCapacity, requested + newCapacity;
    }

    /** memcpy behind the used part, then the terminator. */
    method Copy(text: string)
      requires chars != null && chars.Length == capacity && used + |text| + 1 <= capacity
      modifies this`used, chars
      ensures used == old(used) + |text| && chars[..used] == old(chars[..used]) + text
      ensures chars[used] == '\0'
    {
      forall i | 0 <= i < |text| {
        chars[used + i] := text[i];
      }
      used := used + |text|;
      chars[used] := '\0';
    }
  }
}

/** The update table of the server, and the three functions that work through a configuration text. */
module ConfigEngine {
  import opened Wrappers
  import opened TextLines
  import opened ConfigText
  import opened GrowingText

  datatype Slot = Slot(value: string, hasValue: bool, wasWritten: bool)

  /** Position of `k` in `keys`, or `|keys|`. */
  function Position(keys: seq<string>, k: string): (i: nat)
    ensures i <= |keys|
    ensures i < |keys| ==> keys[i] == k
    ensures k in keys ==> i < |keys|
  {
    if keys == [] || keys[0] == k then 0 else 1 + Position(keys[1..], k)
  }

  lemma {:induction false} PositionOf(keys: seq<string>, i: nat)
    requires Independent(keys) && i < |keys|
    ensures Position(keys, keys[i]) == i
  {
    forall j | 0 <= j < i
      ensures keys[j] != keys[i]
    {
      assert keys[i] in keys[j + 1..];
    }
    PositionIsFirst(keys, keys[i], i);
  }

  lemma {:induction false} PositionIsFirst(keys: seq<string>, k: string, i: nat)
    requires i < |keys| && keys[i] == k
    ensures Position(keys, k) <= i
  {
    if keys[0] != k {
      PositionIsFirst(keys[1..], k, i - 1);
    }
  }

  /** The values a row of slots holds. */
  function ValuesOf(keys: seq<string>, slots: seq<Slot>): map<string, string>
    requires |keys| == |slots|
  {
    map k | k in keys && slots[Position(keys, k)].hasValue :: slots[Position(keys, k)].value
  }

  function WrittenOf(keys: seq<string>, slots: seq<Slot>): set<string>
    requires |keys| == |slots|
  {
    set k | k in keys && slots[Position(keys, k)].wasWritten
  }

  lemma SetSlot(keys: seq<string>, slots: seq<Slot>, i: nat, s: Slot)
    requires Independent(keys) && |keys| == |slots| && i < |keys|
    ensures s.hasValue ==> ValuesOf(keys, slots[i := s]) == ValuesOf(keys, slots)[keys[i] := s.value]
    ensures s.wasWritten ==> WrittenOf(keys, slots[i := s]) == WrittenOf(keys, slots) + {keys[i]}
    ensures s.wasWritten == slots[i].wasWritten ==> WrittenOf(keys, slots[i := s]) == WrittenOf(keys, slots)
  {
    forall k | k in keys
      ensures Position(keys, k) == i <==> k == keys[i]
    {
      PositionOf(keys, i);
    }
  }

  /** Marking a slot with a value as written changes nothing else. */
  lemma MarkSlot(keys: seq<string>, slots: seq<Slot>, i: nat)
    requires Independent(keys) && |keys| == |slots| && i < |keys| && keys[i] in ValuesOf(keys, slots)
    ensures var marked := slots[i := slots[i].(wasWritten := true)];
      && ValuesOf(keys, marked) == ValuesOf(keys, slots)
      && WrittenOf(keys, marked) == WrittenOf(keys, slots) + {keys[i]}
  {
    PositionOf(keys, i);
    var values := ValuesOf(keys, slots);
    SetSlot(keys, slots, i, slots[i].(wasWritten := true));
    assert values[keys[i] := values[keys[i]]] == values;
  }

  /** The line of `s` between two positions. */
  ghost predicate IsLineAt(s: string, start: nat, next: nat, line: Line) {
    && start < next <= |s|
    && '\n' !in line.text
    && s[start..next] == Raw(line)
    && (!line.ended ==> next == |s|)
  }

  /** Cuts the line that begins at `start`: where it ends without a trailing CR, and where the next one begins. */
  method ReadLine(body: string, start: nat) returns (end: nat, next: nat, line: Line)
    requires start < |body|
    ensures IsLineAt(body, start, next, line)
    ensures start <= end <= |body| && StripCr(line.text) == body[start..end]
  {
    next := start;
    while next < |body| && body[next] != '\n'
      invariant start <= next <= |body| && '\n' !in body[start..next]
    {
      next := next + 1;
    }
    end := next;
    line := Line(body[start..end], end < |body|);
    StripCrAt(body, start, end);
    RawAt(body, start, end);
    if end > start && body[end - 1] == '\r' {
      end := end - 1;
    }
    if next < |body| {
      next := next + 1;
    }
  }

  /** Splits a line without its trailing CR at the first '='. */
  method Split(logical: string, ghost line: Line) returns (key: Option<string>, value: string)
    requires '\n' !in line.text && logical == StripCr(line.text)
    ensures key == KeyOf(line)
    ensures key.Some? ==> value == ValueOf(line) && '\n' !in value
  {
    var separator := IndexOf(logical, '=');
    if separator == |logical| {
      return None, "";
    }
    key, value := Some(logical[..separator]), logical[separator + 1..];
    assert forall i :: 0 <= i < |value| ==> value[i] == line.text[separator + 1 + i];
  }

  /** Writes the line `key=value`. */
  method AppendEntry(buffer: TextBuffer, key: string, value: string)
    requires buffer.Valid()
    modifies buffer, buffer.chars
    ensures buffer.Valid() && buffer.chars != null && (buffer.chars == old(buffer.chars) || fresh(buffer.chars))
    ensures buffer.Text() == old(buffer.Text()) + Raw(Entry(key, value))
  {
    EntryBytes(buffer.Text(), key, value);
    buffer.Append(key);
    buffer.Append("=");
    buffer.Append(value);
    buffer.Append("\n");
  }

  lemma EntryBytes(before: string, key: string, value: string)
    ensures before + key + "=" + value + "\n" == before + Raw(Entry(key, value))
  {
    assert before + key + "=" + value + "\n" == before + (key + "=" + value + "\n");
  }

  /** Writes a line as it was found. */
  method AppendLine(buffer: TextBuffer, text: string, hadNewline: bool)
    requires buffer.Valid()
    modifies buffer, buffer.chars
    ensures buffer.Valid() && buffer.chars != null && (buffer.chars == old(buffer.chars) || fresh(buffer.chars))
    ensures buffer.Text() == old(buffer.Text()) + Raw(Line(text, hadNewline))
  {
    ghost var before := buffer.Text();
    buffer.Append(text);
    if hadNewline {
      buffer.Append("\n");
      assert buffer.Text() == before + (text + "\n");
    } else {
      assert text + "" == text;
    }
  }

  class UpdateTable {
    const keys: seq<string>
    const slots: array<Slot>

    ghost predicate Valid()
      reads this, slots
    {
      && slots.Length == |keys|
      && Independent(keys)
      && (forall k :: k in keys ==> PlainKey(k))
      && ValidTable(Table(keys, Values()))
    }

    ghost function Values(): map<string, string>
      reads this, slots
      requires slots.Length == |keys|
    {
      ValuesOf(keys, slots[..])
    }

    ghost function Written(): set<string>
      reads this, slots
      requires slots.Length == |keys|
    {
      WrittenOf(keys, slots[..])
    }

    constructor (keys: seq<string>)
      requires Independent(keys) && forall k :: k in keys ==> PlainKey(k)
      ensures Valid() && this.keys == keys && fresh(slots)
      ensures Values() == map[] && Written() == {}
    {
      this.keys := keys;
      slots := new Slot[|keys|](_ => Slot("", false, false));
    }

    method Reset()
      requires slots.Length == |keys|
      modifies slots
      ensures Values() == map[] && Written() == {}
    {
      for i := 0 to |keys|
        invariant forall j :: 0 <= j < i ==> !slots[j].hasValue && !slots[j].wasWritten
      {
        slots[i] := Slot("", false, false);
      }
      assert forall k :: k in keys ==> slots[..][Position(keys, k)] == slots[Position(keys, k)];
    }

    /** The slot of a key, or -1. */
    method Find(key: string) returns (index: int)
      requires slots.Length == |keys|
      ensures -1 <= index < |keys|
      ensures if index < 0 then key !in keys else keys[index] == key
    {
      for i := 0 to |keys|
        invariant key !in keys[..i]
      {
        if keys[i] == key {
          return i;
        }
      }
      assert keys[..|keys|] == keys;
      return -1;
    }

    /** Puts a value into a slot. */
    method Store(i: nat, value: string)
      requires Valid() && i < |keys| && '\n' !in value && |value| < VALUE_SIZE
      modifies slots
      ensures Valid() && Written() == old(Written())
      ensures Values() == old(Values())[keys[i] := CString(value)]
    {
      var s := Slot(CString(value), true, slots[i].wasWritten);
      SetSlot(keys, slots[..], i, s);
      assert slots[..][i := s][..i] == slots[..i];
      ghost var before := slots[..];
      slots[i] := s;
      assert slots[..] == before[i := s];
    }

    /** Takes the setting of one line of an update body. */
    method TakeSetting(key: string, value: string) returns (ok: bool)
      requires Valid() && '\n' !in value
      modifies slots
      ensures Valid() && Written() == old(Written())
      ensures ok == (key in keys && |value| < VALUE_SIZE)
      ensures Values() == if ok then old(Values()) + map[key := CString(value)] else old(Values())
    {
      var i := Find(key);
      if i < 0 || |value| >= VALUE_SIZE {
        return false;
      }
      MapSet(Values(), key, CString(value));
      Store(i, value);
      return true;
    }

    /** Takes one line of an update body, its trailing CR already dropped. */
    method TakeLine(logical: string, ghost line: Line) returns (ok: bool)
      requires Valid() && '\n' !in line.text && logical == StripCr(line.text)
      modifies slots
      ensures Valid() && Written() == old(Written())
      ensures ok == Accepts(keys, line)
      ensures Values() == if ok then old(Values()) + Setting(line) else old(Values())
    {
      var key, value := Split(logical, line);
      if key.None? {
        assert Values() + map[] == Values();
        return true;
      }
      ok := TakeSetting(key.value, value);
    }

    /** Reads the lines of an update body into the table, stopping at the first line it cannot take. */
    method Parse(body: string) returns (ok: bool)
      requires Valid()
      modifies slots
      ensures Valid()
      ensures Parsed(ok, Values()) == ConfigText.Parse(keys, body, old(Values()))
      ensures body != "" ==> Written() == {}
      ensures body == "" ==> slots[..] == old(slots[..])
    {
      if body == "" {
        return false;
      }
      Reset();
      var offset := 0;
      while offset < |body|
        invariant offset <= |body|
        invariant Valid() && Written() == {}
        invariant ParseLines(keys, Lines(body), map[]) == ParseLines(keys, Lines(body[offset..]), Values())
      {
        var end, next, line := ReadLine(body, offset);
        LinesAt(body, offset, next, line);
        ParseStep(keys, line, Lines(body[next..]), Values());
        ok := TakeLine(body[offset..end], line);
        if !ok {
          return;
        }
        offset := next;
      }
      return true;
    }

    /** Marks a slot as written. */
    method MarkWritten(i: nat)
      requires Valid() && i < |keys| && keys[i] in Values()
      modifies slots
      ensures Valid() && Values() == old(Values()) && Written() == old(Written()) + {keys[i]}
    {
      ghost var before := slots[..];
      MarkSlot(keys, before, i);
      slots[i] := slots[i].(wasWritten := true);
      assert slots[..] == before[i := before[i].(wasWritten := true)];
    }

    /** The slot of the key of a line, or -1. */
    method SlotFor(text: string, hadNewline: bool) returns (i: int)
      requires Valid() && '\n' !in text
      ensures -1 <= i < |keys| && (i >= 0 ==> KeyOf(Line(text, hadNewline)) == Some(keys[i]))
      ensures Replaces(Table(keys, Values()), Line(text, hadNewline)) <==> i >= 0 && slots[i].hasValue
      ensures i >= 0 && slots[i].hasValue ==> Values()[keys[i]] == slots[i].value
    {
      var key, _ := Split(StripCr(text), Line(text, hadNewline));
      i := -1;
      if key.Some? {
        i := Find(key.value);
        if i >= 0 {
          PositionOf(keys, i);
        }
      }
    }

    /** Copies one line into the buffer, or the entry that replaces it. */
    method RewriteLine(buffer: TextBuffer, text: string, hadNewline: bool)
      requires Valid() && buffer.Valid() && '\n' !in text
      requires buffer.chars as object? != slots
      modifies buffer, buffer.chars, slots
      ensures Valid() && Values() == old(Values())
      ensures buffer.Valid() && buffer.chars != null && (buffer.chars == old(buffer.chars) || fresh(buffer.chars))
      ensures var t, l := Table(keys, Values()), Line(text, hadNewline);
              && buffer.Text() == old(buffer.Text()) + Raw(Rewrite(t, l))
              && Written() == old(Written()) + (if Replaces(t, l) then {KeyOf(l).value} else {})
    {
      var i := SlotFor(text, hadNewline);
      if i >= 0 && slots[i].hasValue {
        AppendEntry(buffer, keys[i], slots[i].value);
        MarkWritten(i);
      } else {
        AppendLine(buffer, text, hadNewline);
      }
    }

    /** Appends the entry of slot `i` unless the slot is empty or was written. */
    method AppendIfMissing(buffer: TextBuffer, i: nat)
      requires slots.Length == |keys| && Independent(keys) && buffer.Valid() && i < |keys|
      requires buffer.chars as object? != slots
      modifies buffer, buffer.chars
      ensures slots[..] == old(slots[..])
      ensures buffer.Valid() && (buffer.chars == old(buffer.chars) || fresh(buffer.chars))
      ensures var a := Appended(Table(keys, Values()), [keys[i]], Written());
              && buffer.Text() == old(buffer.Text()) + Join(a)
              && (buffer.chars == null <==> old(buffer.chars) == null && a == [])
    {
      PositionOf(keys, i);
      AppendedOne(Table(keys, Values()), keys[i], Written());
      if slots[i].hasValue && !slots[i].wasWritten {
        AppendEntry(buffer, keys[i], slots[i].value);
      } else {
        assert buffer.Text() + "" == buffer.Text();
      }
    }

    /** Appends an entry for every slot that has a value and was not written. */
    method AppendMissing(buffer: TextBuffer)
      requires slots.Length == |keys| && Independent(keys) && buffer.Valid()
      requires buffer.chars as object? != slots
      modifies buffer, buffer.chars
      ensures slots[..] == old(slots[..])
      ensures buffer.Valid() && (buffer.chars == old(buffer.chars) || fresh(buffer.chars))
      ensures var a := Appended(Table(keys, Values()), keys, Written());
              && buffer.Text() == old(buffer.Text()) + Join(a)
              && (buffer.chars == null <==> old(buffer.chars) == null && a == [])
    {
      ghost var t, w, before := Table(keys, Values()), Written(), buffer.Text();
      assert before + "" == before;
      for i := 0 to |keys|
        invariant slots[..] == old(slots[..])
        invariant buffer.Valid() && buffer.chars as object? != slots
        invariant buffer.chars == old(buffer.chars) || fresh(buffer.chars)
        invariant buffer.Text() == before + Join(Appended(t, keys[..i], w))
        invariant buffer.chars == null <==> old(buffer.chars) == null && Appended(t, keys[..i], w) == []
      {
        AppendedSnoc(t, i, w, before);
        AppendIfMissing(buffer, i);
      }
      assert keys[..|keys|] == keys;
    }

    /** What the rewriting of `existing` has achieved at `cursor`, having started with the keys `w` written. */
    ghost predicate Rewritten(buffer: TextBuffer, existing: string, cursor: nat, w: set<string>, done: seq<Line>)
      reads this, slots, buffer, buffer.chars
      requires slots.Length == |keys| && buffer.Valid()
    {
      && cursor <= |existing|
      && (buffer.chars == null <==> cursor == 0)
      && Lines(existing) == done + Lines(existing[cursor..])
      && buffer.Text() == Join(RewriteAll(Table(keys, Values()), done))
      && Written() == w + Matched(Table(keys, Values()), done)
    }

    /** Rewrites the line at `cursor`. */
    method RewriteNext(buffer: TextBuffer, existing: string, cursor: nat, ghost w: set<string>, ghost done: seq<Line>)
      returns (next: nat, ghost line: Line)
      requires Valid() && buffer.Valid() && buffer.chars as object? != slots
      requires Rewritten(buffer, existing, cursor, w, done) && cursor < |existing|
      modifies buffer, buffer.chars, slots
      ensures Valid() && buffer.Valid() && Values() == old(Values())
      ensures buffer.chars == old(buffer.chars) || fresh(buffer.chars)
      ensures cursor < next && Rewritten(buffer, existing, next, w, done + [line])
    {
      var end, nextLine, l := ReadLine(existing, cursor);
      next, line := nextLine, l;
      ghost var t := Table(keys, Values());
      LinesAdvance(existing, cursor, next, line, done);
      RewriteSnoc(t, done, line);
      SetPlus(w, Matched(t, done), if Replaces(t, line) then {KeyOf(line).value} else {});
      RewriteLine(buffer, l.text, l.ended);
    }

    /** Rewrites the lines of a text, one after the other. */
    method RewriteLines(buffer: TextBuffer, existing: string)
      requires Valid() && buffer.Valid() && buffer.chars == null
      modifies buffer, slots
      ensures Valid() && Values() == old(Values())
      ensures buffer.Valid() && (buffer.chars == null || fresh(buffer.chars))
      ensures Rewritten(buffer, existing, |existing|, old(Written()), Lines(existing))
    {
      ghost var w, done := Written(), [];
      var cursor := 0;
      while cursor < |existing|
        invariant Valid() && Values() == old(Values())
        invariant buffer.Valid() && (buffer.chars != null ==> fresh(buffer.chars))
        invariant Rewritten(buffer, existing, cursor, w, done)
        decreases |existing| - cursor
      {
        ghost var line;
        cursor, line := RewriteNext(buffer, existing, cursor, w, done);
        done := done + [line];
      }
      AllLinesDone(existing, done);
    }

    /**
     Merges the table into an existing text. Nothing at all is produced, not even an empty text, when the
     text is empty and there is nothing to append.
     */
    method Merge(existing: string) returns (merged: Option<string>)
      requires Valid()
      modifies slots
      ensures Valid() && Values() == old(Values())
      ensures var t := Table(keys, Values());
              && Written() == old(Written()) + Matched(t, Lines(existing))
              && (merged.None? <==> existing == "" && Appended(t, keys, Written()) == [])
              && (merged.Some? ==> merged.value == MergeWith(t, old(Written()), existing))
    {
      var buffer := new TextBuffer();
      RewriteLines(buffer, existing);
      AppendMissing(buffer);
      if buffer.chars == null {
        merged := None;
      } else {
        merged := Some(buffer.chars[..buffer.used]);
      }
    }

    /** An update request: parse the body, then merge it into the existing text. */
    method UpdateText(body: string, existing: string) returns (result: Option<string>)
      requires Valid()
      modifies slots
      ensures Valid()
      ensures result == Update(keys, body, existing)
    {
      var ok := Parse(body);
      if !ok {
        return None;
      }
      result := Merge(existing);
      NothingToAppend(Table(keys, Values()));
    }
  }

  /** Finds the value of `key` in a text, for a buffer of `size` bytes. */
  method CopyConfigValue(text: string, key: string, size: nat) returns (r: Lookup)
    ensures r == LookUp(text, key, size)
  {
    if size == 0 {
      return InvalidArg;
    }
    var cursor := 0;
    while cursor < |text|
      invariant cursor <= |text|
      invariant FindIn(Lines(text), key, size) == FindIn(Lines(text[cursor..]), key, size)
    {
      var end, next, line := ReadLine(text, cursor);
      LinesAt(text, cursor, next, line);
      var logical := text[cursor..end];
      FindStep(line, Lines(text[next..]), key, size);
      cursor := next;
      if |logical| <= |key| + 1 {
        continue;
      }
      HoldsChars(line, key);
      if logical[..|key|] != key || logical[|key|] != '=' {
        continue;
      }
      return Fit(logical[|key| + 1..], size);
    }
    return NotFound;
  }

  lemma HoldsChars(l: Line, key: string)
    requires |StripCr(l.text)| > |key| + 1
    ensures Holds(l, key) <==> StripCr(l.text)[..|key|] == key && StripCr(l.text)[|key|] == '='
  {
    var c := StripCr(l.text);
    if c[..|key|] == key && c[|key|] == '=' {
      assert c == key + "=" + c[|key| + 1..];
    }
    if key + "=" <= c {
      assert c[..|key|] == (key + "=")[..|key|] == key && c[|key|] == (key + "=")[|key|];
    }
  }

  lemma LinesAt(s: string, start: nat, next: nat, line: Line)
    requires IsLineAt(s, start, next, line)
    ensures Lines(s[start..]) == [line] + Lines(s[next..])
  {
    assert s[start..] == s[start..next] + s[next..];
    if line.ended {
      LinesOfEndedLine(line.text, s[next..]);
    } else {
      assert s[next..] == "" && s[start..] == line.text;
      LinesOfOpenLine(line.text);
    }
  }

  lemma {:induction false} LinesAdvance(s: string, start: nat, next: nat, line: Line, done: seq<Line>)
    requires IsLineAt(s, start, next, line)
    requires Lines(s) == done + Lines(s[start..])
    ensures Lines(s) == done + [line] + Lines(s[next..])
  {
    LinesAt(s, start, next, line);
    assert done + ([line] + Lines(s[next..])) == done + [line] + Lines(s[next..]);
  }

  lemma RawAt(s: string, start: nat, end: nat)
    requires start <= end <= |s| && (end < |s| ==> s[end] == '\n')
    ensures Raw(Line(s[start..end], end < |s|)) == s[start..if end < |s| then end + 1 else end]
  {
    if end < |s| {
      assert s[start..end + 1] == s[start..end] + [s[end]];
    } else {
      assert s[start..end] + "" == s[start..end];
    }
  }

  lemma StripCrAt(s: string, start: nat, end: nat)
    requires start <= end <= |s|
    ensures StripCr(s[start..end]) == s[start..if end > start && s[end - 1] == '\r' then end - 1 else end]
  {
    if end > start {
      assert s[start..end][..end - start - 1] == s[start..end - 1];
    }
  }

  lemma {:induction false} ParseStep(keys: seq<string>, l: Line, rest: seq<Line>, values: map<string, string>)
    ensures ParseLines(keys, [l] + rest, values)
         == if Accepts(keys, l) then ParseLines(keys, rest, values + Setting(l)) else Parsed(false, values)
  {
    assert ([l] + rest)[1..] == rest;
  }

  lemma {:induction false} FindStep(l: Line, rest: seq<Line>, key: string, size: nat)
    ensures FindIn([l] + rest, key, size)
         == if Holds(l, key) then Fit(StripCr(l.text)[|key| + 1..], size) else FindIn(rest, key, size)
  {
    assert ([l] + rest)[1..] == rest;
  }

  lemma MapSet(m: map<string, string>, k: string, v: string)
    ensures m[k := v] == m + map[k := v]
  {
  }

  lemma {:induction false} AllLinesDone(s: string, done: seq<Line>)
    requires Lines(s) == done + Lines(s[|s|..])
    ensures done == Lines(s) && Lines(s) == Lines(s) + Lines(s[|s|..])
  {
    assert s[|s|..] == "";
  }

  lemma SetPlus(a: set<string>, b: set<string>, c: set<string>)
    ensures (a + b) + c == a + (b + c)
  {
  }

  lemma {:induction false} RewriteSnoc(t: Table, done: seq<Line>, l: Line)
    ensures Join(RewriteAll(t, done + [l])) == Join(RewriteAll(t, done)) + Raw(Rewrite(t, l))
    ensures Matched(t, done + [l]) == Matched(t, done) + (if Replaces(t, l) then {KeyOf(l).value} else {})
  {
    RewriteConcat(t, done, [l]);
    JoinConcat(RewriteAll(t, done), [Rewrite(t, l)]);
    MatchedConcat(t, done, [l]);
    assert RewriteAll(t, [l]) == [Rewrite(t, l)];
    assert Join([Rewrite(t, l)]) == Raw(Rewrite(t, l)) + "";
  }

  lemma {:induction false} AppendedOne(t: Table, k: string, written: set<string>)
    ensures if k in t.values && k !in written
            then Appended(t, [k], written) == [Entry(k, t.values[k])]
                 && Join(Appended(t, [k], written)) == Raw(Entry(k, t.values[k]))
            else Appended(t, [k], written) == []
  {
    assert [k][1..] == [];
    assert forall s: string :: s + "" == s;
  }

  lemma {:induction false} AppendedConcat(t: Table, a: seq<string>, b: seq<string>, written: set<string>)
    ensures Appended(t, a + b, written) == Appended(t, a, written) + Appended(t, b, written)
  {
    if a == [] {
      assert a + b == b;
    } else {
      var one := if a[0] in t.values && a[0] !in written then [Entry(a[0], t.values[a[0]])] else [];
      AppendedConcat(t, a[1..], b, written);
      assert (a + b)[1..] == a[1..] + b;
      assert one + Appended(t, a[1..], written) == Appended(t, a, written);
      Associate(one, Appended(t, a[1..], written), Appended(t, b, written));
    }
  }

  lemma {:induction false} AppendedSnoc(t: Table, i: nat, written: set<string>, before: string)
    requires i < |t.keys|
    ensures var a, one := Appended(t, t.keys[..i], written), Appended(t, [t.keys[i]], written);
            && Appended(t, t.keys[..i + 1], written) == a + one
            && before + Join(Appended(t, t.keys[..i + 1], written)) == before + Join(a) + Join(one)
  {
    assert t.keys[..i + 1] == t.keys[..i] + [t.keys[i]];
    AppendedConcat(t, t.keys[..i], [t.keys[i]], written);
    JoinBehind(before, Appended(t, t.keys[..i], written), Appended(t, [t.keys[i]], written));
  }

  lemma {:induction false} JoinBehind(before: string, a: seq<Line>, b: seq<Line>)
    ensures before + Join(a + b) == before + Join(a) + Join(b)
  {
    JoinConcat(a, b);
  }

  lemma {:induction false} NothingToAppend(t: Table)
    requires ValidTable(t)
    ensures Appended(t, t.keys, {} + Matched(t, Lines(""))) == [] <==> t.values == map[]
  {
    assert {} + Matched(t, Lines("")) == {};
    if t.values == map[] {
      AppendedNone(t, t.keys, {});
    } else {
      var k :| k in t.values;
      AppendedHas(t, t.keys, {}, k);
    }
  }
}
