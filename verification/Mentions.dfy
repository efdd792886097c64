/**
 Group mentions in a message text. The composer extracts the ids that are sent
 with the message, the renderer splits the text into highlighted segments; the
 two scan with different regular expressions and must agree.
 */
module Mentions {
  import opened Domain

  datatype Member = Member(userId: UserId, username: string)
  datatype Segment = Segment(text: string, mentioned: Option<UserId>)
  /** A highlighted stretch of the text, the at sign included. */
  datatype Mark = Mark(start: nat, end: nat, id: UserId)

  /** The class \s of JavaScript regular expressions. */
  predicate IsSpace(c: char) {
    || '\t' <= c <= '\r' || c == ' ' || c == '\U{00A0}' || c == '\U{1680}' || '\U{2000}' <= c <= '\U{200A}'
    || '\U{2028}' <= c <= '\U{2029}' || c == '\U{202F}' || c == '\U{205F}' || c == '\U{3000}' || c == '\U{FEFF}'
  }

  lemma SpacesAre(c: char)
    ensures IsSpace(c) <==>
              c in "\t\n\U{000B}\U{000C}\r \U{00A0}\U{1680}\U{2000}\U{2001}\U{2002}\U{2003}\U{2004}\U{2005}\U{2006}" +
                   "\U{2007}\U{2008}\U{2009}\U{200A}\U{2028}\U{2029}\U{202F}\U{205F}\U{3000}\U{FEFF}"
  {
  }

  predicate InName(c: char) {
    !IsSpace(c) && c != '@'
  }

  /** An at sign followed by at least one name character. */
  predicate TokenAt(text: string, i: nat) {
    i + 1 < |text| && text[i] == '@' && InName(text[i + 1])
  }

  /** A token at a word boundary: what both scans are meant to find. */
  predicate MentionAt(text: string, i: nat) {
    TokenAt(text, i) && (i == 0 || IsSpace(text[i - 1]))
  }

  /** Where the run of name characters from i stops. */
  function NameEnd(text: string, i: nat): (end: nat)
    requires i <= |text|
    ensures i <= end <= |text|
    ensures forall j :: i <= j < end ==> InName(text[j])
    ensures end < |text| ==> !InName(text[end])
    decreases |text| - i
  {
    if i < |text| && InName(text[i]) then NameEnd(text, i + 1) else i
  }

  /** The member map: of several members with one lower-cased name the last one counts. */
  function ByName(members: seq<Member>, lower: string -> string): map<string, UserId> {
    if members == [] then map[]
    else
      var last := members[|members| - 1];
      ByName(members[..|members| - 1], lower)[lower(last.username) := last.userId]
  }

  ghost predicate HasName(members: seq<Member>, lower: string -> string, i: nat, name: string) {
    i < |members| && lower(members[i].username) == name
  }

  /** Member `k` has the lower-cased name, and no later one does. */
  ghost predicate LastNamed(members: seq<Member>, lower: string -> string, k: nat, name: string) {
    && k < |members| && lower(members[k].username) == name
    && forall j :: k < j < |members| ==> lower(members[j].username) != name
  }

  lemma {:induction false} NamedIsKnown(members: seq<Member>, lower: string -> string, i: nat)
    requires i < |members|
    ensures lower(members[i].username) in ByName(members, lower)
  {
    var n := |members| - 1;
    if i < n {
      NamedIsKnown(members[..n], lower, i);
    }
  }

  lemma {:induction false} KnownIsNamed(members: seq<Member>, lower: string -> string, name: string) returns (k: nat)
    requires name in ByName(members, lower)
    ensures LastNamed(members, lower, k, name) && ByName(members, lower)[name] == members[k].userId
  {
    k := |members| - 1;
    if lower(members[k].username) != name {
      k := KnownIsNamed(members[..k], lower, name);
    }
  }

  lemma LastNameWins(members: seq<Member>, lower: string -> string, name: string)
    ensures name in ByName(members, lower) <==> exists i: nat :: HasName(members, lower, i, name)
    ensures name in ByName(members, lower) <==> exists k: nat :: LastNamed(members, lower, k, name)
    ensures forall k: nat :: LastNamed(members, lower, k, name) ==>
              name in ByName(members, lower) && ByName(members, lower)[name] == members[k].userId
  {
    if i: nat :| HasName(members, lower, i, name) {
      NamedIsKnown(members, lower, i);
    }
    if name in ByName(members, lower) {
      var k := KnownIsNamed(members, lower, name);
      assert HasName(members, lower, k, name);
    }
    forall k: nat | LastNamed(members, lower, k, name)
      ensures name in ByName(members, lower) && ByName(members, lower)[name] == members[k].userId
    {
      NamedIsKnown(members, lower, k);
      var j := KnownIsNamed(members, lower, name);
    }
  }

  function IdAt(text: string, names: map<string, UserId>, lower: string -> string, i: nat): Option<UserId>
    requires TokenAt(text, i)
  {
    var name := lower(text[i + 1..NameEnd(text, i + 1)]);
    if name in names then Some(names[name]) else None
  }

  predicate KnownAt(text: string, names: map<string, UserId>, lower: string -> string, i: nat) {
    MentionAt(text, i) && IdAt(text, names, lower, i).Some?
  }

  /** Reference: every position of the text is asked in turn whether a known member is mentioned there. */
  function Marks(text: string, names: map<string, UserId>, lower: string -> string, from: nat): seq<Mark>
    requires from <= |text|
    decreases |text| - from
  {
    if from == |text| then []
    else if KnownAt(text, names, lower, from) then
      [Mark(from, NameEnd(text, from + 1), IdAt(text, names, lower, from).value)] +
      Marks(text, names, lower, from + 1)
    else
      Marks(text, names, lower, from + 1)
  }

  lemma {:induction false} SkipTo(text: string, names: map<string, UserId>, lower: string -> string, from: nat, to: nat)
    requires from <= to <= |text|
    requires forall i :: from <= i < to ==> !KnownAt(text, names, lower, i)
    ensures Marks(text, names, lower, from) == Marks(text, names, lower, to)
    decreases |text| - from
  {
    if from < to {
      SkipTo(text, names, lower, from + 1, to);
    }
  }

  /**
   Member `k` is mentioned from `i` to `end`: an at sign at the start of the
   text or after a space, the longest non-empty run without a space or another
   at sign behind it, and the last member whose name is that run but for case.
   */
  ghost predicate Mentioned(text: string, members: seq<Member>, lower: string -> string, i: nat, end: nat, k: nat) {
    && i + 1 < end <= |text| && k < |members|
    && text[i] == '@' && (i == 0 || IsSpace(text[i - 1]))
    && (forall j :: i < j < end ==> !IsSpace(text[j]) && text[j] != '@')
    && (end < |text| ==> IsSpace(text[end]) || text[end] == '@')
    && lower(members[k].username) == lower(text[i + 1..end])
    && (forall j :: k < j < |members| ==> lower(members[j].username) != lower(text[i + 1..end]))
  }

  lemma {:induction false} MarksAre(text: string, names: map<string, UserId>, lower: string -> string, from: nat, m: Mark)
    requires from <= |text|
    ensures m in Marks(text, names, lower, from) <==>
              && from <= m.start && KnownAt(text, names, lower, m.start)
              && m.end == NameEnd(text, m.start + 1) && m.id == IdAt(text, names, lower, m.start).value
    decreases |text| - from
  {
    if from < |text| {
      MarksAre(text, names, lower, from + 1, m);
    }
  }

  /** The run of name characters has one end. */
  lemma OneNameEnd(text: string, i: nat, end: nat)
    requires i <= end <= |text|
    requires forall j :: i <= j < end ==> InName(text[j])
    requires end < |text| ==> !InName(text[end])
    ensures NameEnd(text, i) == end
  {
  }

  lemma MarkIsMention(text: string, members: seq<Member>, lower: string -> string, m: Mark) returns (k: nat)
    requires m in Marks(text, ByName(members, lower), lower, 0)
    ensures Mentioned(text, members, lower, m.start, m.end, k) && members[k].userId == m.id
  {
    MarksAre(text, ByName(members, lower), lower, 0, m);
    k := KnownIsNamed(members, lower, lower(text[m.start + 1..m.end]));
  }

  lemma MentionIsMark(text: string, members: seq<Member>, lower: string -> string, i: nat, end: nat, k: nat)
    requires Mentioned(text, members, lower, i, end, k)
    ensures Mark(i, end, members[k].userId) in Marks(text, ByName(members, lower), lower, 0)
  {
    OneNameEnd(text, i + 1, end);
    NamedIsKnown(members, lower, k);
    var j := KnownIsNamed(members, lower, lower(text[i + 1..end]));
    MarksAre(text, ByName(members, lower), lower, 0, Mark(i, end, members[k].userId));
  }

  /** The marked stretches are the mentions, each with the id of the member meant. */
  lemma MarksAreMentions(text: string, members: seq<Member>, lower: string -> string, m: Mark)
    ensures m in Marks(text, ByName(members, lower), lower, 0) <==>
              exists k: nat :: Mentioned(text, members, lower, m.start, m.end, k) && members[k].userId == m.id
  {
    if m in Marks(text, ByName(members, lower), lower, 0) {
      var k := MarkIsMention(text, members, lower, m);
    }
    if k: nat :| Mentioned(text, members, lower, m.start, m.end, k) && members[k].userId == m.id {
      MentionIsMark(text, members, lower, m.start, m.end, k);
    }
  }

  ghost predicate NoMention(text: string, from: nat, to: nat) {
    forall i: nat :: from <= i < to ==> !MentionAt(text, i)
  }

  /** From a token on, the marks are the token's own, if it is one, and those after its name. */
  lemma NextMark(text: string, names: map<string, UserId>, lower: string -> string, from: nat, at: nat)
    requires from <= at && TokenAt(text, at)
    requires NoMention(text, from, at)
    ensures at + 1 < NameEnd(text, at + 1)
    ensures var rest := Marks(text, names, lower, NameEnd(text, at + 1));
      Marks(text, names, lower, from) ==
        if KnownAt(text, names, lower, at) then
          [Mark(at, NameEnd(text, at + 1), IdAt(text, names, lower, at).value)] + rest
        else rest
  {
    SkipTo(text, names, lower, from, at);
    SkipTo(text, names, lower, at + 1, NameEnd(text, at + 1));
  }

  function Insert(ids: seq<UserId>, id: UserId): seq<UserId> {
    if id in ids then ids else ids + [id]
  }

  /** A Set filled in order: the first occurrence of each id stays. */
  function Collect(ids: seq<UserId>, marks: seq<Mark>): seq<UserId>
    decreases |marks|
  {
    if marks == [] then ids else Collect(Insert(ids, marks[0].id), marks[1..])
  }

  lemma CollectNext(ids: seq<UserId>, mark: Mark, rest: seq<Mark>)
    ensures Collect(ids, [mark] + rest) == Collect(Insert(ids, mark.id), rest)
  {
    assert ([mark] + rest)[1..] == rest;
  }

  ghost predicate Distinct(ids: seq<UserId>) {
    forall i, j :: 0 <= i < j < |ids| ==> ids[i] != ids[j]
  }

  lemma {:induction false} CollectIsTheSet(ids: seq<UserId>, marks: seq<Mark>)
    requires Distinct(ids)
    ensures Distinct(Collect(ids, marks)) && ids <= Collect(ids, marks)
    ensures forall id :: id in Collect(ids, marks) <==> id in ids || exists k :: 0 <= k < |marks| && marks[k].id == id
    decreases |marks|
  {
    if marks != [] {
      CollectIsTheSet(Insert(ids, marks[0].id), marks[1..]);
      assert forall k :: 0 < k < |marks| ==> marks[k] == marks[1..][k - 1];
    }
  }

  lemma CollectedAreMentioned(text: string, members: seq<Member>, lower: string -> string)
    ensures
      var ids := Collect([], Marks(text, ByName(members, lower), lower, 0));
      Distinct(ids) && forall id :: id in ids <==>
        exists i: nat, end: nat, k: nat :: Mentioned(text, members, lower, i, end, k) && members[k].userId == id
  {
    var marks := Marks(text, ByName(members, lower), lower, 0);
    CollectIsTheSet([], marks);
    forall id
      ensures id in Collect([], marks) <==>
                exists i: nat, end: nat, k: nat :: Mentioned(text, members, lower, i, end, k) && members[k].userId == id
    {
      if j :| 0 <= j < |marks| && marks[j].id == id {
        MarksAreMentions(text, members, lower, marks[j]);
      }
      if i: nat, end: nat, k: nat :| Mentioned(text, members, lower, i, end, k) && members[k].userId == id {
        MarksAreMentions(text, members, lower, Mark(i, end, id));
      }
    }
  }

  /** The match of a mention at i takes in the space before it, so it may start at `from` only if that space does. */
  predicate Starts(i: nat, from: nat) {
    if i == 0 then from == 0 else from < i
  }

  /** Leftmost match of the composer's expression, start of text or a space before the at sign. */
  function BoundedMatch(text: string, from: nat): (at: Option<nat>)
    requires from <= |text|
    ensures at.Some? ==> MentionAt(text, at.value) && Starts(at.value, from)
    ensures forall i :: MentionAt(text, i) && Starts(i, from) ==> at.Some? && at.value <= i
    decreases |text| - from
  {
    if from == 0 && MentionAt(text, 0) then Some(0)
    else if MentionAt(text, from + 1) then Some(from + 1)
    else if from < |text| then BoundedMatch(text, from + 1)
    else None
  }

  /** Leftmost match of the renderer's expression, any token. */
  function TokenMatch(text: string, from: nat): (at: Option<nat>)
    requires from <= |text|
    ensures at.Some? ==> from <= at.value && TokenAt(text, at.value)
    ensures forall i :: from <= i && TokenAt(text, i) ==> at.Some? && at.value <= i
    decreases |text| - from
  {
    if TokenAt(text, from) then Some(from)
    else if from < |text| then TokenMatch(text, from + 1)
    else None
  }

  lemma NobodyNobodyMentioned(text: string, lower: string -> string)
    ensures Marks(text, map[], lower, 0) == []
  {
    SkipTo(text, map[], lower, 0, |text|);
  }

  lemma NothingLeft(text: string, names: map<string, UserId>, lower: string -> string, from: nat)
    requires from <= |text| && NoMention(text, from, |text|)
    ensures Marks(text, names, lower, from) == []
  {
    SkipTo(text, names, lower, from, |text|);
  }

  /** The composer's scan resumes inside or right after a name, so the space it needs is still ahead. */
  ghost predicate Resumable(text: string, from: nat) {
    from <= |text| && (from > 0 ==> InName(text[from - 1]))
  }

  lemma BoundedMatchIsNext(text: string, from: nat)
    requires Resumable(text, from)
    ensures var m := BoundedMatch(text, from);
      match m
      case None => NoMention(text, from, |text|)
      case Some(at) => from <= at && NoMention(text, from, at) && Resumable(text, NameEnd(text, at + 1))
  {
    assert forall i: nat :: from <= i && MentionAt(text, i) ==> Starts(i, from);
  }

  method ExtractMentionIds(text: string, members: seq<Member>, lower: string -> string) returns (ids: seq<UserId>)
    ensures ids == Collect([], Marks(text, ByName(members, lower), lower, 0))
    ensures Distinct(ids)
    ensures forall id :: id in ids <==>
              exists i: nat, end: nat, k: nat :: Mentioned(text, members, lower, i, end, k) && members[k].userId == id
  {
    CollectedAreMentioned(text, members, lower);
    if |members| == 0 {
      NobodyNobodyMentioned(text, lower);
      return [];
    }
    var names := ByName(members, lower);
    ids := [];
    var lastIndex: nat := 0;
    BoundedMatchIsNext(text, lastIndex);
    var m := BoundedMatch(text, lastIndex);
    while m.Some?
      invariant Resumable(text, lastIndex) && m == BoundedMatch(text, lastIndex)
      invariant Collect(ids, Marks(text, names, lower, lastIndex)) == Collect([], Marks(text, names, lower, 0))
      decreases |text| - lastIndex
    {
      var at := m.value;
      BoundedMatchIsNext(text, lastIndex);
      NextMark(text, names, lower, lastIndex, at);
      var id := IdAt(text, names, lower, at);
      if id.Some? {
        CollectNext(ids, Mark(at, NameEnd(text, at + 1), id.value), Marks(text, names, lower, NameEnd(text, at + 1)));
        ids := Insert(ids, id.value);
      }
      lastIndex := NameEnd(text, at + 1);
      m := BoundedMatch(text, lastIndex);
    }
    BoundedMatchIsNext(text, lastIndex);
    NothingLeft(text, names, lower, lastIndex);
  }

  function Concat(segments: seq<Segment>): string {
    if segments == [] then "" else Concat(segments[..|segments| - 1]) + segments[|segments| - 1].text
  }

  /** The highlighted stretches, at the places where the segments put them. */
  function Highlights(segments: seq<Segment>): seq<Mark> {
    if segments == [] then []
    else
      var front, last := segments[..|segments| - 1], segments[|segments| - 1];
      var offset := |Concat(front)|;
      Highlights(front) +
      if last.mentioned.Some? then [Mark(offset, offset + |last.text|, last.mentioned.value)] else []
  }

  lemma Push(segments: seq<Segment>, s: Segment)
    ensures Concat(segments + [s]) == Concat(segments) + s.text
    ensures Highlights(segments + [s]) == Highlights(segments) +
              if s.mentioned.Some? then
                [Mark(|Concat(segments)|, |Concat(segments)| + |s.text|, s.mentioned.value)]
              else []
  {
    assert (segments + [s])[..|segments|] == segments;
  }

  lemma TokenMatchIsNext(text: string, from: nat)
    requires from <= |text|
    ensures var m := TokenMatch(text, from);
      NoMention(text, from, if m.Some? then m.value else |text|)
  {
  }

  lemma Regroup(front: seq<Mark>, mark: Mark, rest: seq<Mark>)
    ensures front + ([mark] + rest) == (front + [mark]) + rest
  {
  }

  method AddMention(text: string, segments: seq<Segment>, last: nat, at: nat, end: nat, id: UserId)
    returns (longer: seq<Segment>)
    requires last <= at < end <= |text| && Concat(segments) == text[..last]
    requires forall s :: s in segments ==> s.text != ""
    ensures Concat(longer) == text[..end]
    ensures Highlights(longer) == Highlights(segments) + [Mark(at, end, id)]
    ensures forall s :: s in longer ==> s.text != ""
  {
    longer := segments;
    if at > last {
      Push(longer, Segment(text[last..at], None));
      longer := longer + [Segment(text[last..at], None)];
    }
    assert Concat(longer) == text[..at];
    Push(longer, Segment(text[at..end], Some(id)));
    longer := longer + [Segment(text[at..end], Some(id))];
  }

  /** The renderer's loop: `last` is where the text not yet put into a segment begins. */
  method HighlightTokens(text: string, names: map<string, UserId>, lower: string -> string)
    returns (segments: seq<Segment>, last: nat)
    ensures last <= |text| && Concat(segments) == text[..last]
    ensures Highlights(segments) == Marks(text, names, lower, 0)
    ensures forall s :: s in segments ==> s.text != ""
  {
    segments, last := [], 0;
    var lastIndex: nat := 0;
    var m := TokenMatch(text, lastIndex);
    while m.Some?
      invariant last <= lastIndex <= |text| && m == TokenMatch(text, lastIndex)
      invariant Concat(segments) == text[..last]
      invariant Highlights(segments) + Marks(text, names, lower, lastIndex) == Marks(text, names, lower, 0)
      invariant forall s :: s in segments ==> s.text != ""
      decreases |text| - lastIndex
    {
      var at := m.value;
      TokenMatchIsNext(text, lastIndex);
      NextMark(text, names, lower, lastIndex, at);
      lastIndex := NameEnd(text, at + 1);
      if !(at > 0 && !IsSpace(text[at - 1])) {
        var id := IdAt(text, names, lower, at);
        if id.Some? {
          Regroup(Highlights(segments), Mark(at, lastIndex, id.value), Marks(text, names, lower, lastIndex));
          segments := AddMention(text, segments, last, at, lastIndex, id.value);
          last := lastIndex;
        }
      }
      m := TokenMatch(text, lastIndex);
    }
    TokenMatchIsNext(text, lastIndex);
    NothingLeft(text, names, lower, lastIndex);
  }

  /** Nothing of the text is lost or added, and exactly the mentions the composer sends are highlighted, each in its place. */
  method SegmentMentions(text: string, members: seq<Member>, lower: string -> string) returns (segments: seq<Segment>)
    ensures Concat(segments) == text
    ensures Highlights(segments) == Marks(text, ByName(members, lower), lower, 0)
    ensures forall m :: m in Highlights(segments) <==>
              exists k: nat :: Mentioned(text, members, lower, m.start, m.end, k) && members[k].userId == m.id
    ensures text != "" ==> forall s :: s in segments ==> s.text != ""
  {
    forall m ensures m in Marks(text, ByName(members, lower), lower, 0) <==>
                       exists k: nat :: Mentioned(text, members, lower, m.start, m.end, k) && members[k].userId == m.id {
      MarksAreMentions(text, members, lower, m);
    }
    var whole := Segment(text, None);
    Push([], whole);
    if |members| == 0 {
      NobodyNobodyMentioned(text, lower);
      return [whole];
    }
    var last;
    segments, last := HighlightTokens(text, ByName(members, lower), lower);
    if last < |text| {
      Push(segments, Segment(text[last..], None));
      segments := segments + [Segment(text[last..], None)];
    }
    if |segments| == 0 {
      segments := [whole];
    }
  }

  lemma {:induction false} HighlightedIds(segments: seq<Segment>, id: UserId)
    ensures (exists k :: 0 <= k < |Highlights(segments)| && Highlights(segments)[k].id == id) <==>
              exists s :: s in segments && s.mentioned == Some(id)
  {
    if segments != [] {
      var front, last := segments[..|segments| - 1], segments[|segments| - 1];
      HighlightedIds(front, id);
      assert segments == front + [last];
      var h := Highlights(front);
      assert forall k :: 0 <= k < |h| ==> Highlights(segments)[k] == h[k];
      if last.mentioned == Some(id) {
        assert Highlights(segments)[|h|].id == id;
      }
    }
  }

  /** The ids sent with a message are the ids its rendering highlights, each of them once. */
  lemma SentIsHighlighted(text: string, members: seq<Member>, lower: string -> string,
                          ids: seq<UserId>, segments: seq<Segment>)
    requires ids == Collect([], Marks(text, ByName(members, lower), lower, 0))
    requires Highlights(segments) == Marks(text, ByName(members, lower), lower, 0)
    ensures Distinct(ids)
    ensures forall id :: id in ids <==> exists s :: s in segments && s.mentioned == Some(id)
  {
    CollectIsTheSet([], Highlights(segments));
    forall id
      ensures id in ids <==> exists s :: s in segments && s.mentioned == Some(id)
    {
      HighlightedIds(segments, id);
    }
  }
}
