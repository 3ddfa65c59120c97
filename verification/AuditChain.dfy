/**
 The meta-theory of a hash chain.  The hash is an arbitrary function with non-empty output, so every
 claim reads: it holds, or two of the texts that were actually hashed collide.
 */
module HashChain {

  type HashFn = string -> string

  ghost predicate NonEmpty(h: HashFn) {
    forall t :: h(t) != ""
  }

  /** A row as the chain sees it: the text that is hashed, and the two stored hashes. */
  datatype Link = Link(text: string, prevHash: string, hash: string)

  ghost predicate Collides(h: HashFn, texts: set<string>) {
    exists a, b :: a in texts && b in texts && a != b && h(a) == h(b)
  }

  ghost function Texts(log: seq<Link>): set<string> {
    set i | 0 <= i < |log| :: log[i].text
  }

  /** The hash the row at position n has to link to. */
  function Head(log: seq<Link>, n: nat): string
    requires n <= |log|
  {
    if n == 0 then "" else log[n - 1].hash
  }

  predicate LinkOk(h: HashFn, log: seq<Link>, i: nat)
    requires i < |log|
  {
    log[i].prevHash == Head(log, i) && log[i].hash == h(log[i].text)
  }

  ghost predicate Valid(h: HashFn, log: seq<Link>) {
    forall i | 0 <= i < |log| :: LinkOk(h, log, i)
  }

  /** The hashed text includes the previous hash. */
  ghost predicate TextsFixPrev(a: seq<Link>, b: seq<Link>) {
    forall i, j | 0 <= i < |a| && 0 <= j < |b| && a[i].text == b[j].text :: a[i].prevHash == b[j].prevHash
  }

  ghost predicate Agree(a: seq<Link>, b: seq<Link>, n: nat) {
    n <= |a| && n <= |b| && forall i | 0 <= i < n :: a[i] == b[i]
  }

  lemma CollisionFound(h: HashFn, a: seq<Link>, i: nat, b: seq<Link>, j: nat)
    requires i < |a| && j < |b| && a[i].text != b[j].text && h(a[i].text) == h(b[j].text)
    ensures Collides(h, Texts(a) + Texts(b))
  {
    assert a[i].text in Texts(a) && b[j].text in Texts(b);
  }

  /** The head commits to the whole history: the same hash after m and n rows means the same rows. */
  lemma {:induction false} Commitment(h: HashFn, a: seq<Link>, m: nat, b: seq<Link>, n: nat)
    requires NonEmpty(h) && Valid(h, a) && Valid(h, b) && TextsFixPrev(a, b)
    requires m <= |a| && n <= |b| && Head(a, m) == Head(b, n)
    ensures (m == n && Agree(a, b, m)) || Collides(h, Texts(a) + Texts(b))
    decreases m
  {
    if m > 0 {
      assert LinkOk(h, a, m - 1);
    }
    if n > 0 {
      assert LinkOk(h, b, n - 1);
    }
    if m > 0 && n > 0 {
      if a[m - 1].text == b[n - 1].text {
        Commitment(h, a, m - 1, b, n - 1);
      } else {
        CollisionFound(h, a, m - 1, b, n - 1);
      }
    }
  }

  /** All hashes in a valid chain are distinct. */
  lemma HashesDistinct(h: HashFn, log: seq<Link>, i: nat, j: nat)
    requires NonEmpty(h) && Valid(h, log) && TextsFixPrev(log, log) && i < j < |log|
    ensures log[i].hash != log[j].hash || Collides(h, Texts(log))
  {
    if log[i].hash == log[j].hash {
      Commitment(h, log, i + 1, log, j + 1);
      assert Texts(log) + Texts(log) == Texts(log);
    }
  }

  /** The positions, in order, of the rows that survive a DELETE. */
  ghost predicate Increasing(kept: seq<nat>, bound: nat) {
    (forall k | 0 <= k < |kept| :: kept[k] < bound) && forall k, l | 0 <= k < l < |kept| :: kept[k] < kept[l]
  }

  function Keep<T>(log: seq<T>, kept: seq<nat>): (rest: seq<T>)
    requires forall k | 0 <= k < |kept| :: kept[k] < |log|
    ensures |rest| == |kept| && forall k | 0 <= k < |kept| :: rest[k] == log[kept[k]]
  {
    seq(|kept|, k requires 0 <= k < |kept| => log[kept[k]])
  }

  ghost predicate IsPrefix(kept: seq<nat>) {
    forall k | 0 <= k < |kept| :: kept[k] == k
  }

  lemma {:induction false} FirstGap(kept: seq<nat>, bound: nat, k: nat) returns (gap: nat)
    requires Increasing(kept, bound) && k < |kept| && kept[k] != k
    ensures gap < |kept| && kept[gap] > gap && forall j | 0 <= j < gap :: kept[j] == j
  {
    if j :| 0 <= j < k && kept[j] != j {
      gap := FirstGap(kept, bound, j);
    } else {
      gap := k;
      assert k > 0 ==> kept[k - 1] < kept[k];
    }
  }

  /** Deleting rows from a valid chain goes unnoticed if and only if what remains is a prefix. */
  lemma DeletionCaught(h: HashFn, log: seq<Link>, kept: seq<nat>)
    requires NonEmpty(h) && Valid(h, log) && TextsFixPrev(log, log) && Increasing(kept, |log|)
    ensures (Valid(h, Keep(log, kept)) <==> IsPrefix(kept)) || Collides(h, Texts(log))
  {
    if IsPrefix(kept) {
      PrefixKept(h, log, kept);
    } else if Valid(h, Keep(log, kept)) {
      GapCollides(h, log, kept);
    }
  }

  lemma PrefixKept(h: HashFn, log: seq<Link>, kept: seq<nat>)
    requires Valid(h, log) && Increasing(kept, |log|) && IsPrefix(kept)
    ensures Valid(h, Keep(log, kept))
  {
    var rest := Keep(log, kept);
    forall i | 0 <= i < |rest|
      ensures LinkOk(h, rest, i)
    {
      assert kept[i] == i;
      assert i > 0 ==> kept[i - 1] == i - 1;
      assert LinkOk(h, log, i);
    }
  }

  /** The first row out of place links to a hash that two rows of the old chain would have to share. */
  lemma GapCollides(h: HashFn, log: seq<Link>, kept: seq<nat>)
    requires NonEmpty(h) && Valid(h, log) && TextsFixPrev(log, log) && Increasing(kept, |log|)
    requires !IsPrefix(kept) && Valid(h, Keep(log, kept))
    ensures Collides(h, Texts(log))
  {
    hide Collides, Texts, TextsFixPrev;
    var rest := Keep(log, kept);
    var k :| 0 <= k < |kept| && kept[k] != k;
    var gap := FirstGap(kept, |log|, k);
    assert LinkOk(h, rest, gap) && LinkOk(h, log, kept[gap]) && LinkOk(h, log, kept[gap] - 1);
    if gap > 0 {
      assert kept[gap - 1] == gap - 1;
      HashesDistinct(h, log, gap - 1, kept[gap] - 1);
    }
  }

  /** Changing one row inside a valid chain goes unnoticed if and only if nothing changed, or two texts collide. */
  lemma InnerChangeCaught(h: HashFn, log: seq<Link>, i: nat, l: Link)
    requires Valid(h, log) && i + 1 < |log|
    ensures (Valid(h, log[i := l]) <==> l == log[i]) || Collides(h, Texts(log) + {l.text})
  {
    hide Collides, Texts;
    var changed := log[i := l];
    assert LinkOk(h, log, i) && LinkOk(h, log, i + 1);
    if Valid(h, changed) {
      assert LinkOk(h, changed, i) && LinkOk(h, changed, i + 1);
      assert changed[i + 1] == log[i + 1] && (i > 0 ==> changed[i - 1] == log[i - 1]);
      if l.text != log[i].text {
        TwoTextsCollide(h, log, i, l.text);
      }
    }
    if l == log[i] {
      assert changed == log;
    }
  }

  lemma TwoTextsCollide(h: HashFn, log: seq<Link>, i: nat, text: string)
    requires i < |log| && log[i].text != text && h(log[i].text) == h(text)
    ensures Collides(h, Texts(log) + {text})
  {
    assert log[i].text in Texts(log);
  }

  /** Changing the newest row goes unnoticed if and only if it links back as before and its hash is recomputed. */
  lemma LastChangeCaught(h: HashFn, log: seq<Link>, l: Link)
    requires Valid(h, log) && log != []
    ensures Valid(h, log[|log| - 1 := l]) <==> l.prevHash == log[|log| - 1].prevHash && l.hash == h(l.text)
  {
    hide LinkOk;
    var n := |log| - 1;
    var changed := log[n := l];
    NewestLink(h, log, l);
    NewestLink(h, log, log[n]);
    assert log[n := log[n]] == log;
    forall k | 0 <= k < n
      ensures LinkOk(h, changed, k)
    {
      assert LinkOk(h, log, k);
      EarlierLink(h, log, l, k);
    }
    assert LinkOk(h, log, n);
  }

  lemma EarlierLink(h: HashFn, log: seq<Link>, l: Link, k: nat)
    requires k + 1 < |log|
    ensures LinkOk(h, log[|log| - 1 := l], k) <==> LinkOk(h, log, k)
  {
  }

  lemma NewestLink(h: HashFn, log: seq<Link>, l: Link)
    requires log != []
    ensures LinkOk(h, log[|log| - 1 := l], |log| - 1) <==> l.prevHash == Head(log, |log| - 1) && l.hash == h(l.text)
  {
  }
}

/** The hash chain over audit events. */
module AuditChain {
  import opened Prelude
  import opened AuditEvents
  import opened HashChain

  function LinkOf(s: Stored): Link {
    Link(CanonicalText(s.event, s.prevHash), s.prevHash, s.hash)
  }

  function Links(log: seq<Stored>): (links: seq<Link>)
    ensures |links| == |log| && forall i | 0 <= i < |log| :: links[i] == LinkOf(log[i])
  {
    seq(|log|, i requires 0 <= i < |log| => LinkOf(log[i]))
  }

  /** What verify checks: every row links to the one before it and its hash is recomputed from its columns. */
  ghost predicate ChainOk(h: HashFn, log: seq<Stored>) {
    Valid(h, Links(log))
  }

  /** The texts verify hashes while it walks the log. */
  ghost function Hashed(log: seq<Stored>): set<string> {
    Texts(Links(log))
  }

  lemma LinksFixPrev(a: seq<Stored>, b: seq<Stored>)
    ensures TextsFixPrev(Links(a), Links(b))
  {
    forall x, y | x in Links(a) && y in Links(b) && x.text == y.text
      ensures x.prevHash == y.prevHash
    {
      var i :| 0 <= i < |a| && Links(a)[i] == x;
      var j :| 0 <= j < |b| && Links(b)[j] == y;
      CanonicalTextInjective(a[i].event, a[i].prevHash, b[j].event, b[j].prevHash);
    }
  }

  function LastHash(log: seq<Stored>): string {
    if log == [] then "" else log[|log| - 1].hash
  }

  ghost predicate SameEvents(a: seq<Stored>, b: seq<Stored>) {
    |a| == |b| && forall i | 0 <= i < |a| :: Plain(a[i].event) == Plain(b[i].event)
  }

  lemma LinksEqualIff(a: Stored, b: Stored)
    ensures LinkOf(a).text == LinkOf(b).text <==> Plain(a.event) == Plain(b.event) && a.prevHash == b.prevHash
  {
    CanonicalTextInjective(a.event, a.prevHash, b.event, b.prevHash);
  }

  /**
   Two logs that verify have the same head hash if and only if they have the same length and the
   same events row by row, up to nil against empty metadata.  So every insertion, deletion or
   reordering that keeps the head hash is caught, and every edit of a row that scanRow can see.
   */
  lemma HeadCommitsToHistory(h: HashFn, a: seq<Stored>, b: seq<Stored>)
    requires NonEmpty(h) && ChainOk(h, a) && ChainOk(h, b)
    ensures (LastHash(a) == LastHash(b) <==> SameEvents(a, b)) || Collides(h, Hashed(a) + Hashed(b))
  {
    hide CanonicalText, Plain, Collides, Hashed, ChainOk;
    if LastHash(a) == LastHash(b) {
      SameHeadSameEvents(h, a, b);
    }
    if SameEvents(a, b) {
      SameEventsSameHead(h, a, b, |a|);
    }
  }

  lemma SameHeadSameEvents(h: HashFn, a: seq<Stored>, b: seq<Stored>)
    requires NonEmpty(h) && ChainOk(h, a) && ChainOk(h, b) && LastHash(a) == LastHash(b)
    ensures SameEvents(a, b) || Collides(h, Hashed(a) + Hashed(b))
  {
    hide CanonicalText, Plain, Collides, LinkOk;
    LinksFixPrev(a, b);
    Commitment(h, Links(a), |a|, Links(b), |b|);
    if |a| == |b| && Agree(Links(a), Links(b), |a|) {
      forall i | 0 <= i < |a|
        ensures Plain(a[i].event) == Plain(b[i].event)
      {
        assert Links(a)[i] == Links(b)[i];
        LinksEqualIff(a[i], b[i]);
      }
    }
  }

  lemma {:induction false} SameEventsSameHead(h: HashFn, a: seq<Stored>, b: seq<Stored>, n: nat)
    requires ChainOk(h, a) && ChainOk(h, b) && SameEvents(a, b) && n <= |a|
    ensures Head(Links(a), n) == Head(Links(b), n)
    decreases n
  {
    hide CanonicalText, Plain;
    if n > 0 {
      SameEventsSameHead(h, a, b, n - 1);
      assert LinkOk(h, Links(a), n - 1) && LinkOk(h, Links(b), n - 1);
      LinksEqualIff(a[n - 1], b[n - 1]);
    }
  }

  /** A DELETE of any rows of a log that verifies is caught if and only if the remaining rows are not a prefix. */
  lemma DeleteCaughtUnlessPrefix(h: HashFn, log: seq<Stored>, kept: seq<nat>)
    requires NonEmpty(h) && ChainOk(h, log) && Increasing(kept, |log|)
    ensures (ChainOk(h, Keep(log, kept)) <==> IsPrefix(kept)) || Collides(h, Hashed(log))
  {
    LinksFixPrev(log, log);
    DeletionCaught(h, Links(log), kept);
    assert Keep(Links(log), kept) == Links(Keep(log, kept));
  }

  /**
   An edit of one row of a log that verifies.  Inside the log it is caught unless the event is the
   same up to nil against empty metadata and both hashes are untouched, or two texts collide; in the
   newest row it is caught unless the row links back as before and its hash is recomputed.
   */
  lemma EditCaught(h: HashFn, log: seq<Stored>, i: nat, s: Stored)
    requires ChainOk(h, log) && i < |log|
    ensures i + 1 < |log| ==>
      (ChainOk(h, log[i := s]) <==>
         Plain(s.event) == Plain(log[i].event) && s.prevHash == log[i].prevHash && s.hash == log[i].hash)
      || Collides(h, Hashed(log) + {CanonicalText(s.event, s.prevHash)})
    ensures i + 1 == |log| ==>
      (ChainOk(h, log[i := s]) <==>
         s.prevHash == log[i].prevHash && s.hash == h(CanonicalText(s.event, s.prevHash)))
  {
    hide CanonicalText, Plain, Collides, Texts;
    assert Links(log[i := s]) == Links(log)[i := LinkOf(s)];
    LinksEqualIff(s, log[i]);
    if i + 1 < |log| {
      InnerChangeCaught(h, Links(log), i, LinkOf(s));
    } else {
      LastChangeCaught(h, Links(log), LinkOf(s));
    }
  }
}
