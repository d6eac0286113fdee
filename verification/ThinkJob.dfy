/** The job that moves marked-up reasoning out of stored messages, batch by batch. */
module ThinkJob {
  import opened Wrappers
  import opened Text
  import opened ThinkTags

  datatype Part = Part(isText: bool, text: string)

  datatype Content = Content(text: string, parts: seq<Part>)

  datatype Stored = Stored(content: Option<Content>, reasoning: string)

  /** Some block between tags is not blank. */
  predicate HasReasoning(text: string) {
    exists i :: 0 <= i < |Scan("<think>", "</think>", text).blocks| &&
      TrimSpace(Scan("<think>", "</think>", text).blocks[i]) != ""
  }

  lemma {:induction false} NothingFound(parts: seq<string>)
    ensures Join(TrimmedNonEmpty(parts), "\n") == "" <==> forall i :: 0 <= i < |parts| ==> TrimSpace(parts[i]) == ""
  {
    if parts != [] {
      NothingFound(parts[1..]);
      assert forall i :: 1 <= i < |parts| ==> parts[i] == parts[1..][i - 1];
      assert forall i :: 0 <= i < |parts[1..]| ==> parts[1..][i] == parts[i + 1];
    }
  }

  /** Text changes only when some reasoning was found in it; then the gaps between the blocks are left. */
  function Cleaned(text: string): (cleaned: string)
    ensures cleaned == if HasReasoning(text) then TrimSpace(Concat(Scan("<think>", "</think>", text).gaps)) else text
  {
    NothingFound(Scan(OPEN, CLOSE, text).blocks);
    if ExtractAndRemoveThinkTags(text).0 != "" then ExtractAndRemoveThinkTags(text).1 else text
  }

  function Found(text: string): (found: seq<string>)
    ensures found == if HasReasoning(text)
                     then [Join(TrimmedNonEmpty(Scan("<think>", "</think>", text).blocks), "\n")] else []
  {
    NothingFound(Scan(OPEN, CLOSE, text).blocks);
    if ExtractAndRemoveThinkTags(text).0 != "" then [ExtractAndRemoveThinkTags(text).0] else []
  }

  /** Only text parts are looked at. */
  function CleanedPart(p: Part): Part {
    if p.isText then p.(text := Cleaned(p.text)) else p
  }

  function FoundInPart(p: Part): seq<string> {
    if p.isText then Found(p.text) else []
  }

  ghost predicate AllCleaned(before: seq<Part>, after: seq<Part>) {
    |after| == |before| && forall i :: 0 <= i < |before| ==> after[i] == CleanedPart(before[i])
  }

  function FoundInParts(parts: seq<Part>): seq<string> {
    if parts == [] then []
    else FoundInParts(parts[..|parts| - 1]) + FoundInPart(parts[|parts| - 1])
  }

  function Reasoning(c: Content): string {
    var found := Found(c.text) + FoundInParts(c.parts);
    if found == [] then "" else TrimSpace(Join(found, "\n"))
  }

  /** c' is c without the reasoning, part by part. */
  ghost predicate WithoutReasoning(c: Content, c': Content) {
    c'.text == Cleaned(c.text) && AllCleaned(c.parts, c'.parts)
  }

  method ExtractFromText(text: string) returns (found: seq<string>, remaining: string)
    ensures found == Found(text) && remaining == Cleaned(text)
  {
    found, remaining := [], text;
    if text != "" {
      var (thinking, modified) := ExtractAndRemoveThinkTags(text);
      if thinking != "" {
        found, remaining := [thinking], modified;
      }
    }
  }

  method ExtractFromPart(p: Part) returns (found: seq<string>, remaining: Part)
    ensures found == FoundInPart(p) && remaining == CleanedPart(p)
  {
    found, remaining := [], p;
    if p.isText && Find(p.text, OPEN) >= 0 {
      var (thinking, modified) := ExtractAndRemoveThinkTags(p.text);
      if thinking != "" {
        found, remaining := [thinking], p.(text := modified);
      }
    }
  }

  lemma FoundInOneMore(parts: seq<Part>, i: nat)
    requires i < |parts|
    ensures FoundInParts(parts[..i + 1]) == FoundInParts(parts[..i]) + FoundInPart(parts[i])
  {
    assert parts[..i + 1][..i] == parts[..i];
  }

  method ExtractFromParts(parts: seq<Part>) returns (found: seq<string>, remaining: seq<Part>)
    ensures found == FoundInParts(parts) && AllCleaned(parts, remaining)
  {
    found, remaining := [], parts;
    for i := 0 to |parts|
      invariant |remaining| == |parts|
      invariant forall k :: 0 <= k < i ==> remaining[k] == CleanedPart(parts[k])
      invariant forall k :: i <= k < |parts| ==> remaining[k] == parts[k]
      invariant found == FoundInParts(parts[..i])
    {
      FoundInOneMore(parts, i);
      var thinking, cleaned := ExtractFromPart(remaining[i]);
      found, remaining := found + thinking, remaining[i := cleaned];
    }
    assert parts[..|parts|] == parts;
  }

  /** A loaded message, edited in place. */
  class UnifiedMessage {
    var content: Option<Content>
    var reasoning: string

    constructor (m: Stored)
      ensures content == m.content && reasoning == m.reasoning
    {
      content, reasoning := m.content, m.reasoning;
    }

    method ExtractThinkFromContent() returns (extracted: string)
      modifies this`content
      ensures if old(content).None? then extracted == "" && content == None
              else extracted == Reasoning(old(content).value) && content.Some?
                   && WithoutReasoning(old(content).value, content.value)
    {
      if content.None? {
        return "";
      }
      var foundInText, text := ExtractFromText(content.value.text);
      var foundInParts, parts := ExtractFromParts(content.value.parts);
      content := Some(Content(text, parts));
      var found := foundInText + foundInParts;
      extracted := if found == [] then "" else TrimSpace(Join(found, "\n"));
    }
  }

  // --- Batches. ---

  /** There is reasoning to move, and a place for it. */
  ghost predicate Worth(m: Stored) {
    m.reasoning == "" && m.content.Some? && Reasoning(m.content.value) != ""
  }

  /** One row before and after the job, for a query that loads the rows meeting candidate and a
      table that refuses updates of rows not in writable. */
  ghost predicate Done(candidate: Stored -> bool, writable: set<nat>, id: nat, before: Stored, after: Stored) {
    if candidate(before) && id in writable && Worth(before) then
      && after.reasoning == Reasoning(before.content.value)
      && after.content.Some? && WithoutReasoning(before.content.value, after.content.value)
    else after == before
  }

  /** The message table. candidate is the filter of the query; rows not in writable refuse updates. */
  class Repository {
    var rows: map<nat, Stored>
    const candidate: Stored -> bool
    const writable: set<nat>

    constructor (rows: map<nat, Stored>, candidate: Stored -> bool, writable: set<nat>)
      ensures this.rows == rows && this.candidate == candidate && this.writable == writable
    {
      this.rows, this.candidate, this.writable := rows, candidate, writable;
    }

    predicate Pending(after: nat, id: nat)
      reads this
    {
      id in rows && id > after && candidate(rows[id])
    }

    /** ids are candidates behind `after`, in order; the others come after them all, and only if more. */
    ghost predicate Next(after: nat, ids: seq<nat>, more: bool)
      reads this
    {
      && (forall id: nat :: id in ids ==> Pending(after, id))
      && (forall i, j :: 0 <= i < j < |ids| ==> ids[i] < ids[j])
      && (forall id: nat :: Pending(after, id) ==> id in ids || (more && (ids == [] || id > ids[|ids| - 1])))
    }

    lemma NextStep(after: nat, ids: seq<nat>, more: bool)
      requires Next(after, ids, more) && ids != []
      ensures Next(ids[0], ids[1..], more)
      ensures forall id: nat :: Pending(after, id) && id <= ids[0] ==> id == ids[0]
    {
      assert ids == [ids[0]] + ids[1..] && ids[0] in ids && Pending(after, ids[0]);
      forall id: nat | id in ids[1..] ensures Pending(ids[0], id) {
        var i :| 0 <= i < |ids[1..]| && ids[1..][i] == id;
        assert ids[0] < ids[i + 1] && ids[i + 1] in ids;
      }
      forall id: nat | Pending(ids[0], id) ensures id in ids[1..] || (more && (ids[1..] == [] || id > ids[|ids| - 1])) {
        assert Pending(after, id);
      }
      forall id: nat | Pending(after, id) && id <= ids[0] ensures id == ids[0] {
        assert id in ids[1..] ==> Pending(ids[0], id);
        assert ids[0] <= ids[|ids| - 1];
      }
    }

    /** The first candidates behind `after`, at most limit of them but never less than one. */
    method FindThinkExtractCandidates(after: nat, limit: int) returns (ids: seq<nat>)
      ensures Next(after, ids, ids != [] && |ids| >= limit)
    {
      var size := if limit < 1 then 1 else limit;
      ids := [];
      var last := after;
      var left := set id | id in rows && Pending(after, id);
      while |ids| < size && left != {}
        invariant |ids| <= size && after <= last
        invariant forall id: nat :: id in left <==> Pending(last, id)
        invariant forall id: nat :: id in ids ==> Pending(after, id) && id <= last
        invariant forall i, j :: 0 <= i < j < |ids| ==> ids[i] < ids[j]
        invariant forall id: nat :: Pending(after, id) ==> id in ids || id > last
        invariant if ids == [] then last == after else last == ids[|ids| - 1]
        decreases left
      {
        var id := Least(left);
        forall x: nat | Pending(after, x) ensures x in ids + [id] || x > id {
          if x !in ids { assert Pending(last, x) && x in left; }
        }
        assert forall x: nat :: x in left <==> Pending(last, x);
        ids, last := ids + [id], id;
        left := left - {id};
      }
      forall id: nat | Pending(after, id) && left == {} ensures id in ids {
        if id !in ids { assert Pending(last, id); }
      }
    }

    /** Reports false, and writes nothing, when the database refuses. */
    method UpdateMessageContent(id: nat, m: Stored) returns (ok: bool)
      requires id in rows
      modifies this`rows
      ensures ok == (id in writable)
      ensures rows == if id in writable then old(rows)[id := m] else old(rows)
    {
      ok := id in writable;
      if ok {
        rows := rows[id := m];
      }
    }
  }

  method Least(s: set<nat>) returns (least: nat)
    requires s != {}
    ensures least in s && forall id: nat :: id in s ==> least <= id
  {
    least :| least in s;
    var rest := s - {least};
    while rest != {}
      invariant least in s && rest <= s
      invariant forall id: nat :: id in s && id !in rest ==> least <= id
      decreases rest
    {
      var id :| id in rest;
      if id < least {
        least := id;
      }
      rest := rest - {id};
    }
  }

  /** One loaded row: extract and, if anything was found, store it. */
  method ProcessRow(repo: Repository, id: nat) returns (processed: bool)
    requires id in repo.rows && repo.candidate(repo.rows[id])
    modifies repo`rows
    ensures repo.rows.Keys == old(repo.rows).Keys
    ensures forall k :: k in repo.rows && k != id ==> repo.rows[k] == old(repo.rows)[k]
    ensures Done(repo.candidate, repo.writable, id, old(repo.rows)[id], repo.rows[id])
    ensures processed <==> repo.rows[id] != old(repo.rows)[id]
  {
    processed := false;
    var msg := new UnifiedMessage(repo.rows[id]);
    if msg.reasoning != "" {
      return;
    }
    var extracted := msg.ExtractThinkFromContent();
    if extracted == "" {
      return;
    }
    msg.reasoning := extracted;
    processed := repo.UpdateMessageContent(id, Stored(msg.content, msg.reasoning));
  }

  type RowGoal = (nat, Stored, Stored) -> bool

  /** goal holds, of an id and its row before and after, whenever the row is done. */
  ghost predicate Covers(candidate: Stored -> bool, writable: set<nat>, goal: RowGoal) {
    forall id: nat, before, after {:trigger Done(candidate, writable, id, before, after)} ::
      Done(candidate, writable, id, before, after) ==> goal(id, before, after)
  }

  /** Rows up to the cursor have met the goal, rows behind it are untouched. */
  ghost predicate Upto(goal: RowGoal, before: map<nat, Stored>, now: map<nat, Stored>, last: nat) {
    && now.Keys == before.Keys
    && (forall id: nat :: id in before && id <= last ==> goal(id, before[id], now[id]))
    && (forall id: nat :: id in before && id > last ==> now[id] == before[id])
  }

  /** The rows a run has changed, and the rows it has loaded, up to the cursor. */
  ghost function Changed(before: map<nat, Stored>, now: map<nat, Stored>): set<nat> {
    set id | id in before && id in now && now[id] != before[id]
  }

  ghost function Loaded(candidate: Stored -> bool, before: map<nat, Stored>, last: nat): set<nat> {
    set id | id in before && id <= last && candidate(before[id])
  }

  lemma CountStep(
    candidate: Stored -> bool, before: map<nat, Stored>, was: map<nat, Stored>, now: map<nat, Stored>,
    last: nat, id: nat
  )
    requires now.Keys == was.Keys == before.Keys && id in before && last < id && candidate(before[id])
    requires was[id] == before[id] && forall k :: k in now && k != id ==> now[k] == was[k]
    requires forall k: nat :: k in before && last < k < id ==> !candidate(before[k])
    ensures |Changed(before, now)| == |Changed(before, was)| + if now[id] != was[id] then 1 else 0
    ensures |Loaded(candidate, before, id)| == |Loaded(candidate, before, last)| + 1
  {
    assert id !in Changed(before, was) && id !in Loaded(candidate, before, last);
    assert Changed(before, now) == if now[id] != was[id] then Changed(before, was) + {id} else Changed(before, was);
    assert Loaded(candidate, before, id) == Loaded(candidate, before, last) + {id};
  }

  lemma UptoStep(
    goal: RowGoal, before: map<nat, Stored>, was: map<nat, Stored>, now: map<nat, Stored>, last: nat, id: nat
  )
    requires Upto(goal, before, was, last) && id in was && last < id
    requires now.Keys == was.Keys && forall k :: k in now && k != id ==> now[k] == was[k]
    requires goal(id, was[id], now[id])
    requires forall k: nat :: k in was && last < k < id ==> goal(k, was[k], was[k])
    ensures Upto(goal, before, now, id)
  {
  }

  lemma UntouchedIsDone(repo: Repository, goal: RowGoal, id: nat, last: nat)
    requires Covers(repo.candidate, repo.writable, goal)
    requires id in repo.rows && id > last && !repo.Pending(last, id)
    ensures goal(id, repo.rows[id], repo.rows[id])
  {
    assert Done(repo.candidate, repo.writable, id, repo.rows[id], repo.rows[id]);
  }

  lemma BetweenIsDone(repo: Repository, rest: seq<nat>, more: bool, goal: RowGoal, before: map<nat, Stored>, at: nat)
    requires rest != [] && repo.Next(at, rest, more)
    requires Covers(repo.candidate, repo.writable, goal) && Upto(goal, before, repo.rows, at)
    ensures forall k: nat :: k in repo.rows && at < k < rest[0] ==>
      goal(k, repo.rows[k], repo.rows[k]) && !repo.candidate(before[k])
  {
    repo.NextStep(at, rest, more);
    forall k: nat | k in repo.rows && at < k < rest[0]
      ensures goal(k, repo.rows[k], repo.rows[k]) && !repo.candidate(before[k])
    {
      assert !repo.Pending(at, k);
      UntouchedIsDone(repo, goal, k, at);
    }
  }

  /** The first row of what is left of a batch. */
  method ProcessNext(
    repo: Repository, rest: seq<nat>, ghost more: bool, ghost goal: RowGoal, ghost before: map<nat, Stored>,
    ghost at: nat
  )
    returns (processed: bool)
    requires rest != [] && repo.Next(at, rest, more)
    requires Covers(repo.candidate, repo.writable, goal) && Upto(goal, before, repo.rows, at)
    modifies repo`rows
    ensures repo.Next(rest[0], rest[1..], more) && Upto(goal, before, repo.rows, rest[0])
    ensures |Changed(before, repo.rows)| == |Changed(before, old(repo.rows))| + if processed then 1 else 0
    ensures |Loaded(repo.candidate, before, rest[0])| == |Loaded(repo.candidate, before, at)| + 1
  {
    repo.NextStep(at, rest, more);
    assert repo.Pending(at, rest[0]);
    BetweenIsDone(repo, rest, more, goal, before, at);
    ghost var was := repo.rows;
    processed := ProcessRow(repo, rest[0]);
    UptoStep(goal, before, was, repo.rows, at, rest[0]);
    CountStep(repo.candidate, before, was, repo.rows, at, rest[0]);
  }

  /** The rows of one batch, moving the cursor along. */
  method ProcessBatch(
    repo: Repository, ids: seq<nat>, ghost more: bool, ghost goal: RowGoal, ghost before: map<nat, Stored>,
    ghost from: nat
  )
    returns (lastID: nat, processed: nat)
    requires ids != [] && repo.Next(from, ids, more)
    requires Covers(repo.candidate, repo.writable, goal) && Upto(goal, before, repo.rows, from)
    modifies repo`rows
    ensures repo.Next(lastID, [], more) && lastID == ids[|ids| - 1]
    ensures Upto(goal, before, repo.rows, lastID)
    ensures processed == |Changed(before, repo.rows)| - |Changed(before, old(repo.rows))|
    ensures |Loaded(repo.candidate, before, lastID)| == |Loaded(repo.candidate, before, from)| + |ids|
  {
    processed := 0;
    var rest := ids;
    ghost var at: nat := from;
    while rest != []
      invariant repo.Next(at, rest, more)
      invariant Upto(goal, before, repo.rows, at)
      invariant EndsWith(rest, at, ids[|ids| - 1])
      invariant processed == |Changed(before, repo.rows)| - |Changed(before, old(repo.rows))|
      invariant |Loaded(repo.candidate, before, at)| + |rest| == |Loaded(repo.candidate, before, from)| + |ids|
      decreases |rest|
    {
      lastID := rest[0];
      var p := ProcessNext(repo, rest, more, goal, before, at);
      EndStays(rest, at, ids[|ids| - 1]);
      at, rest := lastID, rest[1..];
      if p {
        processed := processed + 1;
      }
    }
    lastID := ids[|ids| - 1];
  }

  predicate EndsWith(rest: seq<nat>, at: nat, last: nat) {
    if rest == [] then at == last else rest[|rest| - 1] == last
  }

  lemma EndStays(rest: seq<nat>, at: nat, last: nat)
    requires rest != [] && EndsWith(rest, at, last)
    ensures EndsWith(rest[1..], rest[0], last)
  {
  }

  ghost function Behind(keys: set<nat>, last: nat): set<nat> {
    set id | id in keys && id > last
  }

  lemma BehindShrinks(keys: set<nat>, a: nat, b: nat)
    requires a < b && b in keys
    ensures Behind(keys, b) < Behind(keys, a)
  {
    assert b in Behind(keys, a) && b !in Behind(keys, b);
  }

  /** One round of the loop: a batch, and whether it was full. */
  method RunBatch(repo: Repository, from: nat, batchSize: int, ghost goal: RowGoal, ghost before: map<nat, Stored>)
    returns (lastID: nat, scanned: nat, processed: nat, more: bool)
    requires Covers(repo.candidate, repo.writable, goal) && Upto(goal, before, repo.rows, from)
    modifies repo`rows
    ensures Upto(goal, before, repo.rows, lastID)
    ensures if more then lastID > from && lastID in before else forall id: nat :: !repo.Pending(lastID, id)
    ensures processed == |Changed(before, repo.rows)| - |Changed(before, old(repo.rows))|
    ensures |Loaded(repo.candidate, before, lastID)| == |Loaded(repo.candidate, before, from)| + scanned
  {
    var ids := repo.FindThinkExtractCandidates(from, batchSize);
    scanned, more := |ids|, ids != [] && |ids| >= batchSize;
    lastID, processed := from, 0;
    if ids != [] {
      assert repo.Pending(from, ids[|ids| - 1]);
      lastID, processed := ProcessBatch(repo, ids, more, goal, before, from);
    }
  }

  /** The cursor loop over batches. */
  method ExtractAll(repo: Repository, batchSize: int, ghost goal: RowGoal) returns (scanned: nat, processed: nat)
    requires 0 !in repo.rows && Covers(repo.candidate, repo.writable, goal)
    modifies repo`rows
    ensures repo.rows.Keys == old(repo.rows).Keys
    ensures forall id: nat :: id in repo.rows ==> goal(id, old(repo.rows)[id], repo.rows[id])
    ensures processed == |Changed(old(repo.rows), repo.rows)|
    ensures scanned == |set id | id in old(repo.rows) && repo.candidate(old(repo.rows)[id])|
  {
    ghost var before := repo.rows;
    var lastID: nat := 0;
    scanned, processed := 0, 0;
    var more := true;
    assert Changed(before, repo.rows) == {} && Loaded(repo.candidate, before, lastID) == {};
    while more
      invariant Upto(goal, before, repo.rows, lastID)
      invariant processed == |Changed(before, repo.rows)| && scanned == |Loaded(repo.candidate, before, lastID)|
      invariant !more ==> forall id: nat :: !repo.Pending(lastID, id)
      decreases more, Behind(before.Keys, lastID)
    {
      ghost var from := lastID;
      var n, k;
      lastID, n, k, more := RunBatch(repo, lastID, batchSize, goal, before);
      scanned, processed := scanned + n, processed + k;
      if more {
        BehindShrinks(before.Keys, from, lastID);
      }
    }
    forall id: nat | id in repo.rows && id > lastID ensures goal(id, repo.rows[id], repo.rows[id]) {
      UntouchedIsDone(repo, goal, id, lastID);
    }
    forall id: nat | id in before && repo.candidate(before[id]) ensures id <= lastID {
      assert !repo.Pending(lastID, id);
    }
    assert Loaded(repo.candidate, before, lastID) == set id | id in before && repo.candidate(before[id]);
  }

  /** The job. Whatever the batch size, every row ends up as if all candidates were visited once:
      none is skipped at a batch boundary and no other row is touched. */
  method Extract(repo: Repository, batchSize: int) returns (scanned: nat, processed: nat)
    requires 0 !in repo.rows
    modifies repo`rows
    ensures repo.rows.Keys == old(repo.rows).Keys
    ensures forall id: nat :: id in repo.rows ==>
              Done(repo.candidate, repo.writable, id, old(repo.rows)[id], repo.rows[id])
    ensures processed == |Changed(old(repo.rows), repo.rows)|
    ensures scanned == |set id | id in old(repo.rows) && repo.candidate(old(repo.rows)[id])|
  {
    scanned, processed := ExtractAll(repo, batchSize,
      (id: nat, before, after) => Done(repo.candidate, repo.writable, id, before, after));
  }
}
