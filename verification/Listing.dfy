/** Directory listings over the flat sequence of entries of a directory, fs/fat.rs. */
module Listings {
  import opened Bytes
  import opened DirEntries
  import opened LongNames

  type Entries = s: seq<DirEntry> | AllValid(s)

  /** A file with the indices of its first and its last entry. */
  datatype Listed = Listed(name: Name, sfn: SfnEntry, first: nat, last: nat)

  /** "." or "..". */
  predicate IsDots(name: Name) {
    name == [DOT] || name == [DOT, DOT]
  }

  /** Repeated DirIter::next from entry `i` on, with a reader that has collected the entries from
      `start` to `i`. `None` when an entry makes the iterator go round forever or panic. */
  function List(s: Entries, r: Reader, start: nat, i: nat): (files: Option<seq<Listed>>)
    requires i <= |s|
    decreases |s| - i, if r.Init? then 0 else 1
  {
    if i == |s| then Some([]) else
    var (r', a) := Read(r, s[i]);
    match a
    case Meta(e) => if e.UnusedTerminal? then Some([]) else List(s, Init, i + 1, i + 1)
    case Incomplete => List(s, r', start, i + 1)
    case Complete(name, sfn) => Plus(if IsDots(name) then [] else [Listed(name, sfn, start, i)], List(s, Init, i + 1, i + 1))
    case Broken(_) => if r.Init? then None else List(s, Init, i, i)
    case Panic => None
  }

  function Plus(a: seq<Listed>, b: Option<seq<Listed>>): Option<seq<Listed>> {
    match b case None => None case Some(b) => Some(a + b)
  }

  function Join(a: Option<seq<Listed>>, b: Option<seq<Listed>>): Option<seq<Listed>> {
    match a case None => None case Some(a) => Plus(a, b)
  }

  function Files(s: Entries): Option<seq<Listed>> {
    List(s, Init, 0, 0)
  }

  /** The index of the first terminal, or the length. */
  function End(s: Entries): (t: nat)
    ensures t <= |s|
    ensures forall i :: 0 <= i < t ==> !s[i].UnusedTerminal?
    ensures t < |s| ==> s[t].UnusedTerminal?
  {
    EndFrom(s, 0)
  }

  function EndFrom(s: Entries, i: nat): (t: nat)
    requires i <= |s|
    ensures i <= t <= |s|
    ensures forall j :: i <= j < t ==> !s[j].UnusedTerminal?
    ensures t < |s| ==> s[t].UnusedTerminal?
    decreases |s| - i
  {
    if i == |s| || s[i].UnusedTerminal? then i else EndFrom(s, i + 1)
  }

  // ---- when a listing ends ----

  /** `b` is the long entry that `a` asks for. */
  predicate Follows(a: DirEntry, b: DirEntry) {
    a.Lfn? && b.Lfn? && a.lfn.Order() == b.lfn.Order() + 1 && a.lfn.chksum == b.lfn.chksum
  }

  /** A long entry that neither begins a name nor goes on with one. */
  predicate IsOrphan(s: Entries, i: nat)
    requires i < |s|
  {
    && s[i].Lfn?
    && if i > 0 && Follows(s[i - 1], s[i]) then s[i].lfn.Order() == 0 else !s[i].lfn.IsLastEntry()
  }

  /** The reader before entry `i`: it collects exactly behind a long entry. */
  predicate ReaderAt(s: Entries, r: Reader, i: nat)
    requires i <= |s|
  {
    match r
    case Init => i == 0 || i == |s| || !Follows(s[i - 1], s[i])
    case Collecting(checksum, order, buf) =>
      && 0 < i
      && s[i - 1].Lfn? && s[i - 1].lfn.chksum == checksum && s[i - 1].lfn.Order() == order + 1
      && order * 13 <= |buf|
  }

  lemma {:induction false} ReadKeeps(s: Entries, r: Reader, i: nat)
    requires i < |s| && ReaderAt(s, r, i)
    ensures Read(r, s[i]).1.Incomplete? ==> ReaderAt(s, Read(r, s[i]).0, i + 1)
    ensures Read(r, s[i]).1.Meta? || Read(r, s[i]).1.Complete? ==> ReaderAt(s, Init, i + 1)
    ensures Read(r, s[i]).1.Broken? ==> ReaderAt(s, Init, i)
    ensures Read(r, s[i]).1.Panic? || (Read(r, s[i]).1.Broken? && r.Init?) ==> IsOrphan(s, i)
    ensures !Read(r, s[i]).1.Panic? && !Read(r, s[i]).1.Broken? ==> !IsOrphan(s, i)
    ensures Read(r, s[i]).1.Meta? ==> Read(r, s[i]).1.e == s[i]
    ensures s[i].UnusedTerminal? ==> Read(r, s[i]).1.Meta? || (Read(r, s[i]).1.Broken? && !r.Init?)
  {
    hide Sum, ShortName, Trimmed;
  }

  /** A listing comes to an end, without a panic, exactly when there is no orphan before the terminal. */
  lemma {:induction false} ListingEnds(s: Entries, r: Reader, start: nat, i: nat)
    requires i <= |s| && ReaderAt(s, r, i)
    ensures List(s, r, start, i).Some? <==> forall j :: i <= j < EndFrom(s, i) ==> !IsOrphan(s, j)
    decreases |s| - i, if r.Init? then 0 else 1
  {
    hide Read, IsOrphan, ReaderAt, IsDots;
    if i < |s| {
      var (r', a) := Read(r, s[i]);
      ReadKeeps(s, r, i);
      match a
      case Meta(e) => if !e.UnusedTerminal? { ListingEnds(s, Init, i + 1, i + 1); }
      case Incomplete => ListingEnds(s, r', start, i + 1);
      case Complete(_, _) => ListingEnds(s, Init, i + 1, i + 1);
      case Broken(_) => if !r.Init? { ListingEnds(s, Init, i, i); }
      case Panic =>
    }
  }

  // ---- the loop itself ----

  /** Where the loop of repeated DirIter::next is: before entry `i` with a reader, at the end, or in a panic. */
  datatype Place = Before(r: Reader, i: nat) | Ended | Panicked

  /** One round of it. A broken name is read again from the same entry. */
  function Round(s: Entries, p: Place): Place {
    if !p.Before? then p
    else if p.i >= |s| then Ended
    else
      var (r', a) := Read(p.r, s[p.i]);
      match a
      case Meta(e) => if e.UnusedTerminal? then Ended else Before(Init, p.i + 1)
      case Incomplete => Before(r', p.i + 1)
      case Complete(_, _) => Before(Init, p.i + 1)
      case Broken(_) => Before(r', p.i)
      case Panic => Panicked
  }

  function Rounds(s: Entries, p: Place, n: nat): Place
    decreases n
  {
    if n == 0 then p else Rounds(s, Round(s, p), n - 1)
  }

  lemma {:induction false} RoundsStay(s: Entries, p: Place, n: nat)
    requires Round(s, p) == p
    ensures Rounds(s, p, n) == p
  {
    if n > 0 {
      RoundsStay(s, p, n - 1);
    }
  }

  /** The first orphan before the terminal, or the terminal. */
  function FirstOrphan(s: Entries, i: nat): (j: nat)
    requires i <= |s|
    ensures i <= j <= EndFrom(s, i)
    ensures j < EndFrom(s, i) ==> IsOrphan(s, j)
    ensures forall k :: i <= k < j ==> !IsOrphan(s, k)
    decreases |s| - i
  {
    if i == EndFrom(s, i) || IsOrphan(s, i) then i else FirstOrphan(s, i + 1)
  }

  /** What becomes of the loop: it ends without an orphan, panics at one that goes on with a name, and
      otherwise stays at the orphan. */
  function Outcome(s: Entries, i: nat): Place
    requires i <= |s|
  {
    var j := FirstOrphan(s, i);
    if j == EndFrom(s, i) then Ended
    else if j > 0 && Follows(s[j - 1], s[j]) then Panicked
    else Before(Init, j)
  }

  /** The reader answers a broken name with itself: the same entry is read over and over. */
  lemma {:induction false} RoundBroken(s: Entries, r: Reader, i: nat)
    requires i < |s| && ReaderAt(s, r, i)
    ensures Read(r, s[i]).1.Broken? ==> Read(r, s[i]) == (Init, Broken(s[i]))
    ensures Read(r, s[i]).1.Broken? && r.Init? ==> Round(s, Before(r, i)) == Before(r, i) && IsOrphan(s, i) && !(i > 0 && Follows(s[i - 1], s[i]))
    ensures Read(r, s[i]).1.Panic? ==> IsOrphan(s, i) && i > 0 && Follows(s[i - 1], s[i])
  {
    hide Sum, ShortName, Trimmed;
  }

  /** After finitely many rounds the loop is where it stays, on every directory. */
  lemma {:induction false} LoopOutcome(s: Entries, r: Reader, i: nat) returns (n: nat)
    requires i <= |s| && ReaderAt(s, r, i)
    ensures forall k: nat :: k >= n ==> Rounds(s, Before(r, i), k) == Outcome(s, i)
    decreases |s| - i, if r.Init? then 0 else 1
  {
    hide Read, IsOrphan, ReaderAt, Follows, Round, Rounds;
    var p := Before(r, i);
    RoundStops(s, r);
    if i == |s| {
      n := Stops(s, p, Ended);
    } else {
      ReadKeeps(s, r, i);
      RoundBroken(s, r, i);
      RoundIs(s, r, i);
      var (r', a) := Read(r, s[i]);
      match a
      case Meta(e) =>
        if e.UnusedTerminal? {
          n := Stops(s, p, Ended);
        } else {
          n := LoopOutcome(s, Init, i + 1);
          n := GoesOn(s, p, Before(Init, i + 1), Outcome(s, i + 1), n);
        }
      case Incomplete =>
        n := LoopOutcome(s, r', i + 1);
        n := GoesOn(s, p, Before(r', i + 1), Outcome(s, i + 1), n);
      case Complete(_, _) =>
        n := LoopOutcome(s, Init, i + 1);
        n := GoesOn(s, p, Before(Init, i + 1), Outcome(s, i + 1), n);
      case Broken(_) =>
        if r.Init? {
          n := Stops(s, p, p);
        } else {
          n := LoopOutcome(s, Init, i);
          n := GoesOn(s, p, Before(Init, i), Outcome(s, i), n);
        }
      case Panic =>
        n := Stops(s, p, Panicked);
    }
  }

  /** A listing is given exactly when the loop ends. */
  lemma {:induction false} ListedIfEnded(s: Entries, r: Reader, start: nat, i: nat)
    requires i <= |s| && ReaderAt(s, r, i)
    ensures List(s, r, start, i).Some? <==> Outcome(s, i) == Ended
  {
    hide List, IsOrphan, Follows, ReaderAt;
    ListingEnds(s, r, start, i);
  }

  /** A single long entry that is not the last of its name is read again forever. */
  lemma {:induction false} OrphanNeverEnds(lfn: LfnEntry, n: nat)
    requires lfn.Valid() && !lfn.IsLastEntry()
    ensures AllValid([Lfn(lfn)]) && Rounds([Lfn(lfn)], Before(Init, 0), n) == Before(Init, 0)
  {
    RoundsStay([Lfn(lfn)], Before(Init, 0), n);
  }

  lemma RoundStops(s: Entries, r: Reader)
    ensures Round(s, Ended) == Ended && Round(s, Panicked) == Panicked && Round(s, Before(r, |s|)) == Ended
  {
  }

  lemma {:induction false} RoundIs(s: Entries, r: Reader, i: nat)
    requires i < |s|
    ensures var (r', a) := Read(r, s[i]);
            Round(s, Before(r, i)) == match a
                                      case Meta(e) => if e.UnusedTerminal? then Ended else Before(Init, i + 1)
                                      case Incomplete => Before(r', i + 1)
                                      case Complete(_, _) => Before(Init, i + 1)
                                      case Broken(_) => Before(r', i)
                                      case Panic => Panicked
  {
    hide Read;
  }

  lemma {:induction false} Stops(s: Entries, p: Place, q: Place) returns (n: nat)
    requires Round(s, p) == q && Round(s, q) == q
    ensures forall k: nat :: k >= n ==> Rounds(s, p, k) == q
  {
    hide Round;
    n := 1;
    forall k: nat | k >= n ensures Rounds(s, p, k) == q {
      RoundsStay(s, q, k - 1);
    }
  }

  lemma {:induction false} GoesOn(s: Entries, p: Place, p': Place, q: Place, n: nat) returns (m: nat)
    requires Round(s, p) == p' && forall k: nat :: k >= n ==> Rounds(s, p', k) == q
    ensures forall k: nat :: k >= m ==> Rounds(s, p, k) == q
  {
    hide Round;
    m := n + 1;
    forall k: nat | k >= m ensures Rounds(s, p, k) == q {
      assert Rounds(s, p', k - 1) == q;
    }
  }

  // ---- listings of joined directories ----

  /** Nothing before entry `i` shows in the rest of a listing. */
  lemma {:induction false} ListAgrees(s: Entries, t: Entries, r: Reader, start: nat, i: nat)
    requires i <= |s| == |t| && s[i..] == t[i..]
    ensures List(s, r, start, i) == List(t, r, start, i)
    decreases |s| - i, if r.Init? then 0 else 1
  {
    hide Read, IsDots;
    if i < |s| {
      assert s[i] == s[i..][0] && t[i] == t[i..][0];
      assert s[i + 1..] == s[i..][1..] && t[i + 1..] == t[i..][1..];
      var (r', a) := Read(r, s[i]);
      match a
      case Meta(e) => if !e.UnusedTerminal? { ListAgrees(s, t, Init, i + 1, i + 1); }
      case Incomplete => ListAgrees(s, t, r', start, i + 1);
      case Complete(_, _) => ListAgrees(s, t, Init, i + 1, i + 1);
      case Broken(_) => if !r.Init? { ListAgrees(s, t, Init, i, i); }
      case Panic =>
    }
  }

  /** No name goes on past entry `p`. */
  predicate CutAt(s: Entries, p: nat) {
    p <= |s| && (p > 0 ==> !s[p - 1].Lfn?)
  }

  /** A listing is cut where no name goes on. */
  lemma {:induction false} ListCuts(s: Entries, r: Reader, start: nat, i: nat, p: nat)
    requires i <= p <= |s| && CutAt(s, p) && (i == p ==> r.Init? && start == i)
    requires forall j :: i <= j < p ==> !s[j].UnusedTerminal?
    ensures AllValid(s[..p])
    ensures List(s, r, start, i) == Join(List(s[..p], r, start, i), List(s, Init, p, p))
    decreases p - i, if r.Init? then 0 else 1
  {
    hide Read, IsDots;
    if i < p {
      var (r', a) := Read(r, s[i]);
      CutRead(s, r, i, p);
      match a
      case Meta(e) => ListCuts(s, Init, i + 1, i + 1, p);
      case Incomplete => ListCuts(s, r', start, i + 1, p);
      case Complete(name, sfn) =>
        ListCuts(s, Init, i + 1, i + 1, p);
        PlusJoins(if IsDots(name) then [] else [Listed(name, sfn, start, i)], List(s[..p], Init, i + 1, i + 1), List(s, Init, p, p));
      case Broken(_) => if !r.Init? { ListCuts(s, Init, i, i, p); }
      case Panic =>
    } else {
      PlusNothing(List(s, Init, p, p));
    }
  }

  lemma {:induction false} CutRead(s: Entries, r: Reader, i: nat, p: nat)
    requires i < p <= |s| && CutAt(s, p) && !s[i].UnusedTerminal?
    ensures Read(r, s[i]).1.Incomplete? ==> i + 1 < p
    ensures Read(r, s[i]).1.Meta? ==> !Read(r, s[i]).1.e.UnusedTerminal?
  {
  }

  lemma {:induction false} PlusJoins(a: seq<Listed>, b: Option<seq<Listed>>, c: Option<seq<Listed>>)
    ensures Plus(a, Join(b, c)) == Join(Plus(a, b), c)
  {
    if b.Some? && c.Some? {
      assert a + (b.value + c.value) == a + b.value + c.value;
    }
  }

  lemma {:induction false} PlusNothing(b: Option<seq<Listed>>)
    ensures Plus([], b) == b
  {
    if b.Some? {
      assert [] + b.value == b.value;
    }
  }

  /** Unused entries do not show. */
  lemma {:induction false} ListSkips(s: Entries, i: nat, p: nat)
    requires i <= p <= |s| && forall j :: i <= j < p ==> s[j].Unused?
    ensures List(s, Init, i, i) == List(s, Init, p, p)
    decreases p - i
  {
    if i < p {
      ListSkips(s, i + 1, p);
    }
  }

  /** What the reader completes is what is listed. */
  lemma {:induction false} ListFeeds(s: Entries, r: Reader, start: nat, i: nat, k: nat, name: Name, sfn: SfnEntry)
    requires i <= |s| && AllValid(s[i..]) && Feed(r, s[i..]) == Some((Complete(name, sfn), k))
    ensures 1 <= k <= |s| - i && s[i + k - 1] == Sfn(sfn)
    ensures List(s, r, start, i) == Plus(if IsDots(name) then [] else [Listed(name, sfn, start, i + k - 1)], List(s, Init, i + k, i + k))
    decreases |s| - i
  {
    hide Read, IsDots;
    var (r', a) := Read(r, s[i..][0]);
    assert s[i..][0] == s[i];
    ReadsSfn(r, s[i]);
    if a.Incomplete? {
      assert s[i..][1..] == s[i + 1..];
      ListFeeds(s, r', start, i + 1, k - 1, name, sfn);
    }
  }

  // ---- well-formed directories ----

  /** `b` goes on with the name of `a`: the next long entry, or the short entry the name belongs to. */
  predicate Joined(a: DirEntry, b: DirEntry) {
    && a.Lfn?
    && match b
       case Lfn(lfn) => Follows(a, b) && lfn.Order() > 0
       case Sfn(sfn) => a.lfn.Order() == 1 && a.lfn.chksum == sfn.Checksum()
       case _ => false
  }

  predicate JoinedAt(s: seq<DirEntry>, i: nat)
    requires i + 1 < |s|
  {
    Joined(s[i], s[i + 1])
  }

  predicate WholeAt(s: Entries, i: nat)
    requires i < |s|
  {
    s[i].Lfn? ==>
      && i + 1 < End(s) && JoinedAt(s, i)
      && ((i > 0 && s[i - 1].Lfn?) || s[i].lfn.IsLastEntry())
  }

  /** Every name before the terminal is whole. */
  predicate Whole(s: Entries) {
    forall i: nat :: i < End(s) ==> WholeAt(s, i)
  }

  lemma {:induction false} WholeReads(s: Entries, r: Reader, i: nat)
    requires Whole(s) && i < End(s) && ReaderAt(s, r, i) && (r.Init? ==> CutAt(s, i))
    ensures !Read(r, s[i]).1.Broken? && !Read(r, s[i]).1.Panic?
    ensures Read(r, s[i]).1.Incomplete? <==> s[i].Lfn?
  {
    hide Sum, ShortName, Trimmed, End;
    assert WholeAt(s, i) && (i > 0 ==> WholeAt(s, i - 1));
  }

  /** A file of the listing is one whole block, and the listing from there on begins with it. */
  lemma {:induction false} ListedBlock(s: Entries, r: Reader, start: nat, i: nat, f: Listed)
    requires i <= |s| && start <= i && Whole(s) && ReaderAt(s, r, i) && (r.Init? ==> start == i)
    requires CutAt(s, start) && (forall j :: start <= j < i ==> s[j].Lfn?) && (start < i ==> r.Collecting?)
    requires forall j :: 0 <= j < i ==> !s[j].UnusedTerminal?
    requires List(s, r, start, i).Some? && f in List(s, r, start, i).value
    requires List(s, Init, start, start) == List(s, r, start, i)
    ensures f.first <= f.last < End(s) && CutAt(s, f.first) && s[f.last] == Sfn(f.sfn)
    ensures forall j :: f.first <= j < f.last ==> s[j].Lfn?
    ensures List(s, Init, f.first, f.first) == Plus([f], List(s, Init, f.last + 1, f.last + 1))
    decreases |s| - i
  {
    hide Read, IsDots, Joined, ReaderAt;
    var (r', a) := Read(r, s[i]);
    if i < End(s) {
      WholeReads(s, r, i);
      ReadKeeps(s, r, i);
      ReadsSfn(r, s[i]);
      match a
      case Meta(e) => ListedBlock(s, Init, i + 1, i + 1, f);
      case Incomplete => ListedBlock(s, r', start, i + 1, f);
      case Complete(name, sfn) =>
        if f != Listed(name, sfn, start, i) || IsDots(name) {
          ListedBlock(s, Init, i + 1, i + 1, f);
        }
    } else {
      ReadsTerminal(s, r, i);
    }
  }

  lemma ReadsSfn(r: Reader, e: DirEntry)
    requires e.Valid()
    ensures Read(r, e).1.Complete? ==> e == Sfn(Read(r, e).1.sfn)
    ensures Read(r, e).1.Meta? ==> Read(r, e).1.e == e && !e.Lfn?
    ensures Read(r, e).1.Incomplete? ==> e.Lfn? && Read(r, e).0.Collecting?
  {
  }

  lemma ReadsTerminal(s: Entries, r: Reader, i: nat)
    requires i < |s| && s[i].UnusedTerminal?
    ensures List(s, r, i, i) == Some([]) && forall start :: List(s, r, start, i) == Some([])
  {
    assert List(s, Init, i, i) == Some([]);
  }

  // ---- finding room ----

  /** The search of Dir::insert_dir_entries: where to write, and how many entries are known free there. */
  function Search(s: Entries, need: nat, i: nat, start: nat, len: nat): (nat, nat)
    requires i <= |s|
    decreases |s| - i
  {
    if i == |s| then (start, len) else
    match s[i]
    case Unused =>
      var start' := if len == 0 then i else start;
      if len + 1 == need then (start', len + 1) else Search(s, need, i + 1, start', len + 1)
    case UnusedTerminal => (if len == 0 then i else start, len)
    case _ => Search(s, need, i + 1, start, 0)
  }

  function Room(s: Entries, need: nat): (nat, nat) {
    Search(s, need, 0, 0, 0)
  }

  /** A run of `need` unused entries that ends before `limit`. */
  ghost predicate Run(s: Entries, q: nat, need: nat, limit: nat) {
    q + need <= limit <= |s| && forall j :: q <= j < q + need ==> s[j].Unused?
  }

  /** What the search has seen before entry `i`. */
  ghost predicate Searching(s: Entries, need: nat, i: nat, start: nat, len: nat) {
    && i <= End(s)
    && len < need
    && start <= i
    && (forall q: nat :: !Run(s, q, need, i))
    && if len > 0 then
         start + len == i && Run(s, start, len, i) && (start > 0 ==> !s[start - 1].Unused?)
       else
         i > 0 ==> start < i && !s[i - 1].Unused? && !Run(s, start, need, |s|)
  }

  lemma {:induction false} SearchStep(s: Entries, need: nat, i: nat, start: nat, len: nat)
    requires Searching(s, need, i, start, len) && i < End(s)
    ensures !s[i].Unused? ==> Searching(s, need, i + 1, start, 0)
    ensures s[i].Unused? && len + 1 < need ==> Searching(s, need, i + 1, if len == 0 then i else start, len + 1)
    ensures s[i].Unused? && len + 1 == need ==>
              var start' := if len == 0 then i else start;
              Run(s, start', need, End(s)) && forall q: nat :: q < start' ==> !Run(s, q, need, End(s))
  {
    hide End;
    var n, start' := i + 1, if len == 0 then i else start;
    forall q: nat | Run(s, q, need, n) && s[i].Unused? ensures q >= start' && q + need == n {
      assert q + need <= i ==> Run(s, q, need, i);
      assert start' > 0 ==> !s[start' - 1].Unused?;
    }
    forall q: nat | Run(s, q, need, End(s)) && s[i].Unused? && len + 1 == need ensures q >= start' {
      assert q + need <= i ==> Run(s, q, need, i);
      assert start' > 0 ==> !s[start' - 1].Unused?;
    }
    forall q: nat | Run(s, q, need, n) && !s[i].Unused? ensures Run(s, q, need, i) {
    }
    assert len > 0 || i == 0 ==> (Run(s, start, need, |s|) ==> s[i].Unused?);
  }

  /** The search finds the first run before the terminal if there is one, otherwise the entries that
      end at the terminal or at the end, and otherwise a place of which some entry is in use. */
  lemma {:induction false} SearchFinds(s: Entries, need: nat, i: nat, start: nat, len: nat)
    requires Searching(s, need, i, start, len)
    ensures var (p, l) := Search(s, need, i, start, len);
            && (l == 0 && End(s) == |s| > 0 ==> p < |s|)
            && l <= need && p + l <= End(s)
            && (l == need <==> exists q: nat :: Run(s, q, need, End(s)))
            && (l == need ==> Run(s, p, need, End(s)) && forall q: nat :: q < p ==> !Run(s, q, need, End(s)))
            && (l < need && (l > 0 || End(s) < |s|) ==> p + l == End(s) && Run(s, p, l, End(s)))
            && (l > 0 && p > 0 ==> !s[p - 1].Unused?)
            && (l == 0 && End(s) == |s| > 0 ==> !s[|s| - 1].Unused? && !Run(s, p, need, |s|))
    decreases |s| - i
  {
    hide End;
    if i < End(s) {
      SearchStep(s, need, i, start, len);
      if !s[i].Unused? {
        SearchFinds(s, need, i + 1, start, 0);
      } else if len + 1 < need {
        SearchFinds(s, need, i + 1, if len == 0 then i else start, len + 1);
      }
    }
  }
}
