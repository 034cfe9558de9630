/** The message history: appended once per conversation and nonce, one line per message in a file, read
    back at the start. */
module MessageLedger {
  import opened Options
  import opened Arithmetic

  /** The fields the ledger looks at; an absent conversation reads as the empty one. */
  datatype Msg = Msg(conv: string, nonce: Option<string>, rest: string)

  datatype Codec = Codec(encode: Msg -> Option<string>, decode: string -> Option<Msg>)

  predicate Blank(c: char) { c == ' ' || '\t' <= c <= '\r' }

  /** What the ledger needs of the JSON library: texts on one line, from one bracket to the other, that read
      back as written. */
  ghost predicate Lawful(codec: Codec) {
    forall m :: codec.encode(m).Some? ==> ReadsBack(codec, m, codec.encode(m).value)
  }

  ghost predicate ReadsBack(codec: Codec, m: Msg, text: string) {
    && text != "" && !Blank(text[0]) && !Blank(text[|text| - 1])
    && '\n' !in text
    && codec.decode(text) == Some(m)
  }

  // ---------- the file ----------

  function Trim(s: string): string
    decreases |s|
  {
    if s == "" then s
    else if Blank(s[0]) then Trim(s[1..])
    else if Blank(s[|s| - 1]) then Trim(s[..|s| - 1])
    else s
  }

  /** The pieces between line feeds. */
  function Split(raw: string): (pieces: seq<string>)
    ensures pieces != []
  {
    if raw == "" then [""] else Extend(Split(raw[..|raw| - 1]), raw[|raw| - 1])
  }

  function Extend(pieces: seq<string>, c: char): (longer: seq<string>)
    requires pieces != []
    ensures longer != []
  {
    if c == '\n' then pieces + [""] else pieces[..|pieces| - 1] + [pieces[|pieces| - 1] + [c]]
  }

  function Read(codec: Codec, piece: string): Option<Msg> {
    if Trim(piece) == "" then None else codec.decode(Trim(piece))
  }

  /** The messages of those pieces that hold one. */
  function Messages(codec: Codec, pieces: seq<string>): seq<Msg> {
    if pieces == [] then []
    else
      var m := Read(codec, pieces[|pieces| - 1]);
      Messages(codec, pieces[..|pieces| - 1]) + if m.Some? then [m.value] else []
  }

  // ---------- the ledger ----------

  datatype Store = Store(file: string, items: seq<Msg>)

  const EMPTY: Store := Store("", [])

  predicate Twins(a: Msg, b: Msg) {
    a.conv != "" && a.conv == b.conv && a.nonce.Some? && a.nonce == b.nonce
  }

  /** Appends unless there is a twin, the message has no text form, or the file cannot be written. */
  function Append(codec: Codec, s: Store, m: Msg, writes: bool): Store {
    if (exists x <- s.items :: Twins(x, m)) || codec.encode(m).None? || !writes then s
    else Store(s.file + codec.encode(m).value + "\n", s.items + [m])
  }

  function Reload(codec: Codec, s: Store): Store { s.(items := Messages(codec, Split(s.file))) }

  function Matching(items: seq<Msg>, conv: string): seq<Msg> {
    if items == [] then []
    else Matching(items[..|items| - 1], conv) + if items[|items| - 1].conv == conv then [items[|items| - 1]] else []
  }

  function History(items: seq<Msg>, conv: string, limit: nat): seq<Msg> {
    var all := Matching(items, conv);
    if conv == "" then [] else all[|all| - Min(limit, |all|)..]
  }

  class MessageStore {
    const codec: Codec
    var file: string
    var items: seq<Msg>

    constructor (codec: Codec, file: string)
      ensures this.codec == codec && this.file == file
      ensures items == Reload(codec, Store(file, [])).items
    {
      this.codec, this.file, items := codec, file, [];
      new;
      Load();
    }

    function Now(): Store
      reads this
    {
      Store(file, items)
    }

    method Load()
      requires items == []
      modifies this`items
      ensures Now() == Reload(codec, old(Now()))
    {
      var pieces := Split(file);
      for i := 0 to |pieces|
        invariant items == Messages(codec, pieces[..i])
      {
        assert pieces[..i + 1][..i] == pieces[..i];
        var line := Trim(pieces[i]);
        if line == "" { continue; }
        var parsed := codec.decode(line);
        if parsed.None? { continue; }
        items := items + [parsed.value];
      }
      assert pieces[..|pieces|] == pieces;
    }

    method AppendMessage(m: Msg, writes: bool) returns (added: bool)
      modifies this
      ensures Now() == Append(codec, old(Now()), m, writes)
      ensures added <==> items != old(items)
    {
      if m.conv != "" && m.nonce.Some? {
        for i := 0 to |items|
          invariant forall j :: 0 <= j < i ==> !Twins(items[j], m)
          invariant Now() == old(Now())
        {
          if items[i].conv == m.conv && items[i].nonce.Some? && items[i].nonce.value == m.nonce.value {
            assert Twins(items[i], m);
            return false;
          }
        }
      }
      var line := codec.encode(m);
      if line.None? { return false; }
      if !writes { return false; }
      file := file + line.value + "\n";
      items := items + [m];
      return true;
    }

    method Latest(conv: string, limit: nat) returns (out: seq<Msg>)
      ensures out == History(items, conv, limit)
    {
      out := [];
      if conv == "" { return; }
      var hint := IndicesOf(conv);
      if hint == [] { return; }
      var begin := if |hint| > limit then |hint| - limit else 0;
      for i := begin to |hint|
        invariant out == Picked(items, hint)[begin..i]
      {
        assert hint[i] in hint;
        out := out + [items[hint[i]]];
      }
    }

    /** Positions of a conversation's items. */
    method IndicesOf(conv: string) returns (hint: seq<nat>)
      ensures forall k <- hint :: k < |items|
      ensures Picked(items, hint) == Matching(items, conv)
    {
      hint := [];
      for i := 0 to |items|
        invariant forall k <- hint :: k < i
        invariant Picked(items, hint) == Matching(items[..i], conv)
      {
        assert items[..i + 1][..i] == items[..i];
        if items[i].conv == conv {
          PickedSnoc(items, hint, i);
          hint := hint + [i];
        }
      }
      assert items[..|items|] == items;
    }
  }

  function Picked(items: seq<Msg>, at: seq<nat>): (p: seq<Msg>)
    requires forall k <- at :: k < |items|
    ensures |p| == |at|
    ensures forall j :: 0 <= j < |at| ==> at[j] in at && p[j] == items[at[j]]
  {
    seq(|at|, i requires 0 <= i < |at| => var k := at[i]; assert k in at; items[k])
  }

  lemma PickedSnoc(items: seq<Msg>, at: seq<nat>, i: nat)
    requires (forall k <- at :: k < |items|) && i < |items|
    ensures Picked(items, at + [i]) == Picked(items, at) + [items[i]]
  {
  }

  // ---------- reading back ----------

  lemma {:induction false} SplitConcat(a: string, b: string)
    ensures Split(a + "\n" + b) == Split(a) + Split(b)
  {
    if b == "" {
      assert a + "\n" + b == a + ['\n'];
      SplitSnoc(a, '\n');
    } else {
      var init, c := b[..|b| - 1], b[|b| - 1];
      SplitConcat(a, init);
      assert b == init + [c] && a + "\n" + b == (a + "\n" + init) + [c];
      SplitSnoc(a + "\n" + init, c);
      SplitSnoc(init, c);
      ExtendConcat(Split(a), Split(init), c);
    }
  }

  lemma SplitSnoc(s: string, c: char)
    ensures Split(s + [c]) == Extend(Split(s), c)
  {
    assert (s + [c])[..|s|] == s;
  }

  lemma ExtendConcat(p: seq<string>, q: seq<string>, c: char)
    requires q != []
    ensures Extend(p + q, c) == p + Extend(q, c)
  {
    assert (p + q)[..|p + q| - 1] == p + q[..|q| - 1];
  }

  lemma {:induction false} SplitLine(line: string)
    requires '\n' !in line
    ensures Split(line) == [line]
  {
    if line != "" {
      var init, c := line[..|line| - 1], line[|line| - 1];
      assert line == init + [c];
      assert c != '\n' by { assert c in line; }
      SplitLine(init);
      assert [init][..0] + [init + [c]] == [line];
    }
  }

  lemma MessagesSnoc(codec: Codec, pieces: seq<string>, p: string)
    ensures Messages(codec, pieces + [p]) ==
      Messages(codec, pieces) + if Read(codec, p).Some? then [Read(codec, p).value] else []
  {
    assert (pieces + [p])[..|pieces|] == pieces;
  }

  /** The file is a sequence of whole lines, and reads back as the items. */
  ghost predicate Consistent(codec: Codec, s: Store) {
    && (s.file == "" || s.file[|s.file| - 1] == '\n')
    && Messages(codec, Split(s.file)) == s.items
  }

  lemma ReadsBackAfterAppend(codec: Codec, s: Store, m: Msg, text: string)
    requires Consistent(codec, s) && ReadsBack(codec, m, text)
    ensures Consistent(codec, Store(s.file + text + "\n", s.items + [m]))
  {
    var pieces := SplitAppended(s.file, text);
    assert Read(codec, text) == Some(m) && Read(codec, "") == None;
    MessagesSnoc(codec, pieces, "");
    MessagesSnoc(codec, pieces, text);
    MessagesSnoc(codec, pieces + [text], "");
  }

  /** A line added to whole lines is one more piece before the empty last one. */
  lemma SplitAppended(file: string, text: string) returns (pieces: seq<string>)
    requires file == "" || file[|file| - 1] == '\n'
    requires '\n' !in text
    ensures Split(file) == pieces + [""]
    ensures Split(file + text + "\n") == pieces + [text] + [""]
  {
    SplitLine(text);
    EndLine(file + text);
    if file == "" {
      pieces := [];
      assert file + text == text;
    } else {
      var before := file[..|file| - 1];
      pieces := Split(before);
      assert before + "\n" == file;
      EndLine(before);
      SplitConcat(before, text);
    }
  }

  lemma EndLine(s: string)
    ensures Split(s + "\n") == Split(s) + [""]
  {
    SplitSnoc(s, '\n');
  }

  // ---------- what is read ----------

  /** A space, or one of the codes 9 to 13: tab, line feed, vertical tab, form feed, carriage return. */
  predicate White(c: char) { c as int == 32 || 9 <= c as int <= 13 }

  /** White space around a text is not part of it. */
  lemma {:induction false} TrimmedIs(before: string, text: string, behind: string)
    requires (forall c <- before :: White(c)) && (forall c <- behind :: White(c))
    requires text != "" ==> !White(text[0]) && !White(text[|text| - 1])
    ensures Trim(before + text + behind) == text
    decreases |before| + |behind|
  {
    var s := before + text + behind;
    if before != "" {
      assert White(before[0]);
      assert s[1..] == before[1..] + text + behind;
      TrimmedIs(before[1..], text, behind);
    } else if behind != "" {
      assert behind[|behind| - 1] in behind && White(behind[|behind| - 1]);
      if text == "" {
        assert behind[0] in behind && White(behind[0]);
        assert s[1..] == "" + text + behind[1..];
        TrimmedIs("", text, behind[1..]);
      } else {
        assert s[..|s| - 1] == "" + text + behind[..|behind| - 1];
        TrimmedIs("", text, behind[..|behind| - 1]);
      }
    } else {
      assert s == text;
    }
  }

  /** What a file's lines are read as, whoever wrote them: a line of white space is passed over, and so is one that
      does not parse; the rest are the items, in order. */
  lemma {:induction false} LinesRead(codec: Codec, file: string, before: string, text: string, behind: string)
    requires (forall c <- before :: White(c)) && (forall c <- behind :: White(c))
    requires text != "" ==> !White(text[0]) && !White(text[|text| - 1])
    requires '\n' !in before + text + behind
    ensures
      var was := Messages(codec, Split(file));
      Messages(codec, Split(file + "\n" + (before + text + behind))) ==
        if text != "" && codec.decode(text).Some? then was + [codec.decode(text).value] else was
  {
    var line := before + text + behind;
    TrimmedIs(before, text, behind);
    SplitConcat(file, line);
    SplitLine(line);
    MessagesSnoc(codec, Split(file), line);
    assert Messages(codec, Split(file)) + [] == Messages(codec, Split(file));
  }

  // ---------- what is added ----------

  /** A message is added exactly if it has a text form, the file can be written, and no item of its conversation has
      its nonce; then it is the last item, and its text is the file's last line. */
  lemma AppendedExactly(codec: Codec, s: Store, m: Msg, writes: bool)
    ensures
      var t := Step(codec, s, EAppend(m, writes));
      if writes && codec.encode(m).Some?
         && (m.conv == "" || m.nonce.None? || forall x <- s.items :: x.conv != m.conv || x.nonce != m.nonce)
      then t == Store(s.file + codec.encode(m).value + "\n", s.items + [m])
      else t == s
  {
  }

  /** The last `limit` items of the conversation, or all of them if there are no more; none of the empty one. */
  lemma HistoryIsTheTail(items: seq<Msg>, conv: string, limit: nat)
    ensures
      var h, all := History(items, conv, limit), Matching(items, conv);
      && (conv == "" ==> h == [])
      && (conv != "" && |all| <= limit ==> h == all)
      && (conv != "" && |all| > limit ==> all == all[..|all| - limit] + h)
  {
  }

  // ---------- runs ----------

  datatype Event = EAppend(m: Msg, writes: bool) | ERestart

  function Step(codec: Codec, s: Store, e: Event): Store {
    match e
    case EAppend(m, writes) => Append(codec, s, m, writes)
    case ERestart => Reload(codec, s)
  }

  function After(codec: Codec, run: seq<Event>): Store {
    if run == [] then EMPTY else Step(codec, After(codec, run[..|run| - 1]), run[|run| - 1])
  }

  ghost predicate NoTwins(items: seq<Msg>) {
    forall i, j :: 0 <= i < j < |items| && items[i].conv == items[j].conv != "" && items[i].nonce.Some? ==>
      items[i].nonce != items[j].nonce
  }

  /** After any appends and restarts from an empty ledger: no two items share a conversation and a nonce, and
      reading the file gives exactly the items, so a restart changes nothing. */
  lemma {:induction false} UniqueAndReloadable(codec: Codec, run: seq<Event>)
    requires Lawful(codec)
    ensures NoTwins(After(codec, run).items)
    ensures Consistent(codec, After(codec, run))
    ensures Reload(codec, After(codec, run)) == After(codec, run)
  {
    if run == [] {
      MessagesSnoc(codec, [], "");
      assert [] + [""] == [""];
    } else {
      var init, e := run[..|run| - 1], run[|run| - 1];
      UniqueAndReloadable(codec, init);
      StepKeeps(codec, After(codec, init), e);
      assert After(codec, run) == Step(codec, After(codec, init), e);
    }
  }

  lemma StepKeeps(codec: Codec, s: Store, e: Event)
    requires Lawful(codec) && NoTwins(s.items) && Consistent(codec, s)
    ensures NoTwins(Step(codec, s, e).items) && Consistent(codec, Step(codec, s, e))
  {
    if e.EAppend? && Step(codec, s, e) != s {
      ReadsBackAfterAppend(codec, s, e.m, codec.encode(e.m).value);
      StillUnique(s.items, e.m);
    }
  }

  lemma StillUnique(items: seq<Msg>, m: Msg)
    requires NoTwins(items) && forall x <- items :: !Twins(x, m)
    ensures NoTwins(items + [m])
  {
    assert forall i :: 0 <= i < |items| ==> items[i] in items;
  }

  /** Items are never moved or dropped, and a message whose append could be written is there, itself or its
      earlier twin. */
  lemma {:induction false} NothingIsLost(codec: Codec, run: seq<Event>, k: nat)
    requires Lawful(codec) && k < |run|
    ensures After(codec, run[..k]).items <= After(codec, run).items
    ensures run[k].EAppend? && run[k].writes && codec.encode(run[k].m).Some? ==>
      exists x <- After(codec, run).items ::
        || x == run[k].m
        || (run[k].m.conv != "" && x.conv == run[k].m.conv && run[k].m.nonce.Some? && x.nonce == run[k].m.nonce)
  {
    var init := run[..|run| - 1];
    UniqueAndReloadable(codec, init);
    if k < |init| {
      NothingIsLost(codec, init, k);
      assert run[..k] == init[..k] && run[k] == init[k];
      assert forall x <- After(codec, init).items :: x in After(codec, run).items;
    } else {
      assert run[..k] == init;
      if run[k].EAppend? && After(codec, run).items != After(codec, init).items {
        assert run[k].m in After(codec, run).items;
      }
    }
  }

  /** A message that was added is the newest of its conversation's history, behind what was there; other
      histories do not change. */
  lemma HistoryAfterAppend(codec: Codec, s: Store, m: Msg, conv: string, limit: nat)
    requires Append(codec, s, m, true) != s && limit > 0 && conv != ""
    ensures
      var h := History(Append(codec, s, m, true).items, conv, limit);
      if conv == m.conv then h == History(s.items, conv, limit - 1) + [m] else h == History(s.items, conv, limit)
  {
    var items := Append(codec, s, m, true).items;
    assert items[..|items| - 1] == s.items;
  }

  lemma {:induction false} MatchingMeaning(items: seq<Msg>, conv: string, x: Msg)
    ensures multiset(Matching(items, conv))[x] == if x.conv == conv then multiset(items)[x] else 0
  {
    if items != [] {
      MatchingMeaning(items[..|items| - 1], conv, x);
      assert items == items[..|items| - 1] + [items[|items| - 1]];
    }
  }
}
