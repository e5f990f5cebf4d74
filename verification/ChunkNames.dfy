/**
  Cutting a property name into chunks: at underscores, which are dropped, and before capital letters.
 */
module ChunkNames {
  predicate IsCapital(c: char) {
    'A' <= c <= 'Z'
  }

  predicate IsSeparator(c: char) {
    c == '_' || IsCapital(c)
  }

  /** How many characters come before the next separator. */
  function TextLength(s: string): (k: nat)
    ensures k <= |s| && (k < |s| ==> IsSeparator(s[k]))
    ensures forall i :: 0 <= i < k ==> !IsSeparator(s[i])
  {
    if s == "" || IsSeparator(s[0]) then 0 else 1 + TextLength(s[1..])
  }

  /** Where the text of the chunk starts that a separator opens: a capital letter, also one right after an
      underscore, is part of the chunk. */
  function TextStart(s: string): (k: nat)
    requires s != "" && IsSeparator(s[0])
    ensures 0 < k <= |s|
  {
    if s[0] == '_' && |s| > 1 && IsCapital(s[1]) then 2 else 1
  }

  function ChunkEnd(s: string): (k: nat)
    requires s != "" && IsSeparator(s[0])
    ensures TextStart(s) <= k <= |s| && (k < |s| ==> IsSeparator(s[k]))
  {
    TextStart(s) + TextLength(s[TextStart(s)..])
  }

  /** The chunk opened by the separator at the front. */
  function FirstChunk(s: string): string
    requires s != "" && IsSeparator(s[0])
  {
    s[if s[0] == '_' then 1 else 0..ChunkEnd(s)]
  }

  /** One chunk for every separator. */
  function Opened(s: string): seq<string>
    requires s != "" ==> IsSeparator(s[0])
    decreases |s|
  {
    if s == "" then [] else [FirstChunk(s)] + Opened(s[ChunkEnd(s)..])
  }

  /** The text before the first separator, if any, and the chunks the separators open. */
  function ChunkName(name: string): seq<string> {
    var k := TextLength(name);
    (if k > 0 then [name[..k]] else []) + Opened(name[k..])
  }

  // ------------------------------------------------------------- properties

  function Joined(chunks: seq<string>): string {
    if chunks == [] then "" else chunks[0] + Joined(chunks[1..])
  }

  function WithoutUnderscores(s: string): string {
    if s == "" then "" else (if s[0] == '_' then "" else [s[0]]) + WithoutUnderscores(s[1..])
  }

  lemma {:induction false} WithoutOfBoth(s: string, t: string)
    ensures WithoutUnderscores(s + t) == WithoutUnderscores(s) + WithoutUnderscores(t)
  {
    if s == "" {
      assert s + t == t;
    } else {
      assert (s + t)[1..] == s[1..] + t;
      WithoutOfBoth(s[1..], t);
    }
  }

  lemma WithoutOfSplit(s: string, k: nat)
    requires k <= |s|
    ensures WithoutUnderscores(s) == WithoutUnderscores(s[..k]) + WithoutUnderscores(s[k..])
  {
    hide WithoutUnderscores;
    WithoutOfBoth(s[..k], s[k..]);
    assert s[..k] + s[k..] == s;
  }

  lemma {:induction false} NothingToDrop(s: string)
    requires forall i :: 0 <= i < |s| ==> s[i] != '_'
    ensures WithoutUnderscores(s) == s
  {
    if s != "" { NothingToDrop(s[1..]); }
  }

  /** Only the first character of a chunk can be a capital letter, and none is an underscore. */
  predicate IsChunk(chunk: string) {
    forall i :: 0 <= i < |chunk| ==> chunk[i] != '_' && (i > 0 ==> !IsCapital(chunk[i]))
  }

  lemma FirstChunkIs(s: string)
    requires s != "" && IsSeparator(s[0])
    ensures IsChunk(FirstChunk(s)) && WithoutUnderscores(s[..ChunkEnd(s)]) == FirstChunk(s)
  {
    var start, end := TextStart(s), ChunkEnd(s);
    assert forall i :: start <= i < end ==> s[i] == s[start..][i - start];
    NothingToDrop(FirstChunk(s));
    if s[0] == '_' {
      assert s[..end][1..] == FirstChunk(s);
    } else {
      assert s[..end] == FirstChunk(s);
    }
  }

  lemma OneOpened(s: string)
    requires s != "" && IsSeparator(s[0])
    ensures Opened(s) == [FirstChunk(s)] + Opened(s[ChunkEnd(s)..])
  {
  }

  lemma {:induction false} OpenedJoins(s: string)
    requires s != "" ==> IsSeparator(s[0])
    ensures Joined(Opened(s)) == WithoutUnderscores(s)
    decreases |s|
  {
    if s != "" {
      OpenedJoins(s[ChunkEnd(s)..]);
      hide Opened, Joined, WithoutUnderscores, FirstChunk, ChunkEnd, IsSeparator;
      FirstChunkIs(s);
      OneOpened(s);
      WithoutOfSplit(s, ChunkEnd(s));
      JoinedMore(FirstChunk(s), Opened(s[ChunkEnd(s)..]));
    }
  }

  lemma {:induction false} OpenedAreChunks(s: string)
    requires s != "" ==> IsSeparator(s[0])
    ensures forall c :: c in Opened(s) ==> IsChunk(c)
    decreases |s|
  {
    if s != "" {
      FirstChunkIs(s);
      OpenedAreChunks(s[ChunkEnd(s)..]);
      OneOpened(s);
      hide Opened, FirstChunk, ChunkEnd, IsChunk;
    }
  }

  lemma JoinedMore(c: string, cs: seq<string>)
    ensures Joined([c] + cs) == c + Joined(cs)
  {
    assert ([c] + cs)[1..] == cs;
  }

  lemma OpenedNothing(s: string)
    requires s != "" ==> IsSeparator(s[0])
    ensures Opened(s) == [] <==> s == ""
  {
  }

  /** The chunks joined are the name without its underscores; each chunk has at most one capital letter, in
      front; only the empty name has no chunk. */
  lemma ChunksJoin(name: string)
    ensures Joined(ChunkName(name)) == WithoutUnderscores(name)
    ensures forall c :: c in ChunkName(name) ==> IsChunk(c)
    ensures ChunkName(name) == [] <==> name == ""
  {
    hide Opened, Joined, WithoutUnderscores;
    var k := TextLength(name);
    OpenedJoins(name[k..]);
    OpenedAreChunks(name[k..]);
    OpenedNothing(name[k..]);
    NothingToDrop(name[..k]);
    WithoutOfSplit(name, k);
    if k > 0 {
      JoinedMore(name[..k], Opened(name[k..]));
    } else {
      assert name[0..] == name && [] + Opened(name) == Opened(name);
      assert WithoutUnderscores(name[..0]) == "";
    }
  }

  /** Where no underscore meets a capital letter, the two parts are cut separately. */
  predicate Apart(s: string, t: string) {
    s == "" || t == "" || s[|s| - 1] != '_' || !IsCapital(t[0])
  }

  lemma {:induction false} TextOfBoth(s: string, t: string)
    requires t != "" && IsSeparator(t[0])
    ensures TextLength(s + t) == TextLength(s)
  {
    if s == "" {
      assert s + t == t;
    } else {
      assert (s + t)[1..] == s[1..] + t;
      TextOfBoth(s[1..], t);
    }
  }

  lemma EndOfBoth(s: string, t: string)
    requires s != "" && IsSeparator(s[0]) && t != "" && IsSeparator(t[0]) && Apart(s, t)
    ensures ChunkEnd(s + t) == ChunkEnd(s) && FirstChunk(s + t) == FirstChunk(s)
  {
    hide TextLength;
    var start := TextStart(s);
    assert TextStart(s + t) == start && (s + t)[start..] == s[start..] + t;
    TextOfBoth(s[start..], t);
    var lo := if s[0] == '_' then 1 else 0;
    assert ChunkEnd(s + t) == ChunkEnd(s) && (s + t)[lo..ChunkEnd(s)] == s[lo..ChunkEnd(s)];
  }

  lemma OneMoreOpened(s: string, t: string)
    requires s != "" && IsSeparator(s[0]) && t != "" && IsSeparator(t[0]) && Apart(s, t)
    requires Opened(s[ChunkEnd(s)..] + t) == Opened(s[ChunkEnd(s)..]) + Opened(t)
    ensures Opened(s + t) == Opened(s) + Opened(t)
  {
    EndOfBoth(s, t);
    OneOpened(s);
    OneOpened(s + t);
    SuffixOfBoth(s, t, ChunkEnd(s));
    hide Opened, FirstChunk, ChunkEnd, IsSeparator, Apart;
    Regrouped([FirstChunk(s)], Opened(s[ChunkEnd(s)..]), Opened(t));
  }

  lemma SuffixOfBoth(s: string, t: string, k: nat)
    requires k <= |s|
    ensures (s + t)[..k] == s[..k] && (s + t)[k..] == s[k..] + t
  {
  }

  lemma Regrouped(a: seq<string>, b: seq<string>, c: seq<string>)
    ensures a + (b + c) == a + b + c
  {
  }

  lemma {:induction false} OpenedOfBoth(s: string, t: string)
    requires (s != "" ==> IsSeparator(s[0])) && t != "" && IsSeparator(t[0]) && Apart(s, t)
    ensures Opened(s + t) == Opened(s) + Opened(t)
    decreases |s|
  {
    if s == "" {
      assert s + t == t;
    } else {
      var end := ChunkEnd(s);
      OpenedOfBoth(s[end..], t);
      hide Opened, FirstChunk, ChunkEnd, IsSeparator, Apart;
      OneMoreOpened(s, t);
    }
  }

  lemma ChunksOfBoth(s: string, t: string)
    requires t != "" && IsSeparator(t[0]) && Apart(s, t)
    ensures ChunkName(s + t) == ChunkName(s) + Opened(t)
  {
    var k := TextLength(s);
    assert Apart(s[k..], t);
    TextOfBoth(s, t);
    SuffixOfBoth(s, t, k);
    OpenedOfBoth(s[k..], t);
    hide Opened, IsSeparator, Apart, TextLength;
    Regrouped(if k > 0 then [s[..k]] else [], Opened(s[k..]), Opened(t));
  }

  /** An underscore before a capital letter makes no difference to the chunks if and only if it does not follow
      an underscore. */
  lemma UnderscoreBeforeCapital(s: string, c: char, t: string)
    requires IsCapital(c)
    ensures ChunkName(s + "_" + [c] + t) == ChunkName(s + [c] + t) <==> s == "" || s[|s| - 1] != '_'
  {
    hide Opened, ChunkName;
    var a, b := "_" + [c] + t, [c] + t;
    assert s + "_" + [c] + t == s + a && s + [c] + t == s + b;
    ChunksOfBoth(s, a);
    OpenedAlike(c, t);
    if s == "" || s[|s| - 1] != '_' {
      ChunksOfBoth(s, b);
    } else {
      var u := s[..|s| - 1];
      assert s == u + "_" && s + b == u + a;
      ChunksOfBoth(u, a);
      ChunksOfBoth(u, "_");
      LoneUnderscore();
    }
  }

  lemma LoneUnderscore()
    ensures Opened("_") == [""]
  {
    assert "_"[1..] == "" && ChunkEnd("_") == 1;
  }

  lemma OpenedAlike(c: char, t: string)
    requires IsCapital(c)
    ensures Opened("_" + [c] + t) == Opened([c] + t)
  {
    var a, b := "_" + [c] + t, [c] + t;
    hide TextLength;
    assert a[2..] == t == b[1..];
    assert ChunkEnd(a) == 2 + TextLength(t) && ChunkEnd(b) == 1 + TextLength(t);
    assert a[1..ChunkEnd(a)] == b[0..ChunkEnd(b)] && a[ChunkEnd(a)..] == b[ChunkEnd(b)..];
  }

  // ---------------------------------------------- one more character at the end

  lemma CutText(s: string)
    requires forall i :: 0 <= i < |s| ==> s[i] != '_' && !('A' <= s[i] <= 'Z')
    ensures ChunkName(s) == if s == "" then [] else [s]
  {
    hide Opened;
    AllText(s);
    assert s[|s|..] == "" && s[..|s|] == s;
    OpenedNothing("");
  }

  lemma {:induction false} AllText(s: string)
    requires forall i :: 0 <= i < |s| ==> !IsSeparator(s[i])
    ensures TextLength(s) == |s|
  {
    if s != "" { AllText(s[1..]); }
  }

  /** An underscore opens an empty chunk. */
  lemma UnderscoreOpens(s: string)
    ensures ChunkName(s + "_") == ChunkName(s) + [""]
  {
    hide Opened, ChunkName;
    ChunksOfBoth(s, "_");
    LoneUnderscore();
  }

  /** A capital letter opens a chunk of its own, or takes the place of the empty chunk of an underscore before it. */
  lemma CapitalOpens(s: string, c: char)
    requires 'A' <= c <= 'Z'
    ensures if s != "" && s[|s| - 1] == '_'
            then ChunkName(s) == ChunkName(s[..|s| - 1]) + [""] && ChunkName(s + [c]) == ChunkName(s[..|s| - 1]) + [[c]]
            else ChunkName(s + [c]) == ChunkName(s) + [[c]]
  {
    hide Opened, ChunkName;
    if s != "" && s[|s| - 1] == '_' {
      var u := s[..|s| - 1];
      assert s == u + "_" && s + [c] == u + ("_" + [c]);
      UnderscoreOpens(u);
      ChunksOfBoth(u, "_" + [c]);
      LoneCapital(c);
    } else {
      ChunksOfBoth(s, [c]);
      LoneCapital(c);
    }
  }

  lemma LoneCapital(c: char)
    requires IsCapital(c)
    ensures Opened([c]) == [[c]] == Opened("_" + [c])
  {
    var s := "_" + [c];
    assert [c][1..] == "" && s[2..] == "" && ChunkEnd([c]) == 1 && ChunkEnd(s) == 2;
    assert FirstChunk([c]) == [c] && FirstChunk(s) == [c];
    OneOpened([c]);
    OneOpened(s);
  }

  /** Any other character goes on with the last chunk, or opens the first: names are cut nowhere else. */
  lemma OtherGoesOn(s: string, c: char)
    requires c != '_' && !('A' <= c <= 'Z')
    ensures s == "" ==> ChunkName(s + [c]) == [[c]]
    ensures s != "" ==> ChunkName(s) != [] && ChunkName(s + [c]) == Extended(ChunkName(s), c)
  {
    var k := TextLength(s);
    if k == |s| {
      TextBeforeIs(s);
      assert forall i :: 0 <= i < |s + [c]| ==> !IsSeparator((s + [c])[i]);
      hide ChunkName, IsSeparator, TextLength;
      CutText(s);
      CutText(s + [c]);
      if s == "" {
        assert s + [c] == [c];
      } else {
        assert [s][..0] == [] && Extended([s], c) == [s + [c]];
      }
    } else {
      hide Opened, IsSeparator;
      TextStops(s, [c]);
      OpenedGoesOn(s[k..], c);
      SuffixOfBoth(s, [c], k);
      ExtendedLater(if k > 0 then [s[..k]] else [], Opened(s[k..]), c);
    }
  }

  lemma TextBeforeIs(s: string)
    requires TextLength(s) == |s|
    ensures forall i :: 0 <= i < |s| ==> !IsSeparator(s[i])
  {
  }

  /** The chunks with a character put behind the last. */
  function Extended(cs: seq<string>, c: char): seq<string>
    requires cs != []
  {
    cs[..|cs| - 1] + [cs[|cs| - 1] + [c]]
  }

  lemma ExtendedLater(a: seq<string>, b: seq<string>, c: char)
    requires b != []
    ensures a + b != [] && Extended(a + b, c) == a + Extended(b, c)
  {
  }

  lemma {:induction false} TextStops(s: string, t: string)
    requires TextLength(s) < |s|
    ensures TextLength(s + t) == TextLength(s)
  {
    if !IsSeparator(s[0]) {
      assert (s + t)[1..] == s[1..] + t;
      TextStops(s[1..], t);
    }
  }

  lemma TextGoesOn(s: string, c: char)
    requires TextLength(s) == |s| && !IsSeparator(c)
    ensures TextLength(s + [c]) == |s| + 1
  {
    TextBeforeIs(s);
    AllText(s + [c]);
  }

  lemma {:induction false} OpenedGoesOn(s: string, c: char)
    requires s != "" && IsSeparator(s[0]) && !IsSeparator(c)
    ensures Opened(s) != [] && Opened(s + [c]) == Extended(Opened(s), c)
    decreases |s|
  {
    if ChunkEnd(s) == |s| {
      LastGoesOn(s, c);
    } else {
      OpenedGoesOn(s[ChunkEnd(s)..], c);
      FirstStays(s, c);
    }
  }

  lemma StartStays(s: string, c: char)
    requires s != "" && IsSeparator(s[0]) && !IsSeparator(c)
    ensures TextStart(s + [c]) == TextStart(s) && (s + [c])[TextStart(s)..] == s[TextStart(s)..] + [c]
  {
  }

  lemma LastGoesOn(s: string, c: char)
    requires s != "" && IsSeparator(s[0]) && !IsSeparator(c) && ChunkEnd(s) == |s|
    ensures Opened(s) != [] && Opened(s + [c]) == Extended(Opened(s), c)
  {
    EndGoesOn(s, c);
    LoneChunk(s);
    LoneChunk(s + [c]);
    hide Opened, FirstChunk, ChunkEnd, IsSeparator;
    assert [FirstChunk(s)][..0] == [];
  }

  lemma EndGoesOn(s: string, c: char)
    requires s != "" && IsSeparator(s[0]) && !IsSeparator(c) && ChunkEnd(s) == |s|
    ensures ChunkEnd(s + [c]) == |s| + 1 && FirstChunk(s + [c]) == FirstChunk(s) + [c]
  {
    StartStays(s, c);
    TextGoesOn(s[TextStart(s)..], c);
    hide TextLength;
    var lo := if s[0] == '_' then 1 else 0;
    assert ChunkEnd(s + [c]) == |s| + 1 && (s + [c])[lo..|s| + 1] == s[lo..] + [c];
  }

  lemma LoneChunk(s: string)
    requires s != "" && IsSeparator(s[0]) && ChunkEnd(s) == |s|
    ensures Opened(s) == [FirstChunk(s)]
  {
    OneOpened(s);
    assert s[|s|..] == "" && Opened("") == [];
  }

  lemma FirstStays(s: string, c: char)
    requires s != "" && IsSeparator(s[0]) && !IsSeparator(c) && ChunkEnd(s) < |s|
    requires Opened(s[ChunkEnd(s)..]) != [] && Opened(s[ChunkEnd(s)..] + [c]) == Extended(Opened(s[ChunkEnd(s)..]), c)
    ensures Opened(s) != [] && Opened(s + [c]) == Extended(Opened(s), c)
  {
    EndStays(s, c);
    OneOpened(s);
    OneOpened(s + [c]);
    SuffixOfBoth(s, [c], ChunkEnd(s));
    hide Opened, FirstChunk, ChunkEnd, IsSeparator, Extended;
    ExtendedLater([FirstChunk(s)], Opened(s[ChunkEnd(s)..]), c);
  }

  lemma EndStays(s: string, c: char)
    requires s != "" && IsSeparator(s[0]) && !IsSeparator(c) && ChunkEnd(s) < |s|
    ensures ChunkEnd(s + [c]) == ChunkEnd(s) && FirstChunk(s + [c]) == FirstChunk(s)
  {
    StartStays(s, c);
    TextStops(s[TextStart(s)..], [c]);
    hide TextLength;
    var lo := if s[0] == '_' then 1 else 0;
    assert ChunkEnd(s + [c]) == ChunkEnd(s) && (s + [c])[lo..ChunkEnd(s)] == s[lo..ChunkEnd(s)];
  }
}
