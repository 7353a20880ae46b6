/**
 * The post-matching workflow `identifyAndMatch` (backend/server.js:112-273): after a
 * lost or found post is created, its first image is sent to the identify service,
 * and every candidate of the opposite type becomes a `matchpost` row, followed by a
 * push message to the owner of the candidate's post.
 *
 * `Workflow` is the reference definition of one run on a snapshot of the database;
 * `Backend.IdentifyAndMatch` is the run itself, a loop that appends to the match
 * table and to the outbox and is proved to do what `Workflow` says.
 */
module Matching {
  import opened Wrappers
  import opened JsText

  /** The distance the identify service reports; stored as it comes, never compared. */
  type Distance(==)

  datatype PostType = Lost | Found

  /** One entry of the service's `result` list. */
  datatype Candidate = Candidate(postLabel: string, distance: Distance)

  /** The identify call threw, or it answered with a body whose `result` field may be absent. */
  datatype ScoreReply = Unreachable | Reply(result: Option<seq<Candidate>>)

  /** A `matchpost` row. */
  datatype MatchRow = MatchRow(lostPostId: int, foundPostId: int, distance: Distance)

  /** A push message: device token, notification title and body, and data payload. */
  datatype Message = Message(token: string, title: string, body: string, data: map<string, string>)

  /** The columns of a `lostcatpost` row the workflow reads. */
  datatype LostPost = LostPost(owner: int, cat: int)

  /** The tables the workflow reads. `lostImages[p]` / `foundImages[p]` are the image
      paths of post `p` in the order the database returns them; `tokens[u]` is user
      `u`'s FCM token (a missing key stands for a missing user or a NULL token). */
  datatype Repository = Repository(
    lostPosts: map<int, LostPost>,
    foundOwners: map<int, int>,
    catNames: map<int, string>,
    tokens: map<int, string>,
    lostImages: map<int, seq<string>>,
    foundImages: map<int, seq<string>>)

  /** The database and messaging calls of one run. A run is given an oracle
      `fails: Query -> bool` saying which calls throw; calls made for a candidate
      carry the candidate's position in the service's list. */
  datatype Query =
    | ImageLookup
    | InsertMatch(i: nat)
    | PostLookup(i: nat)
    | CatNameLookup(i: nat)
    | LocationLookup(i: nat)
    | TokenLookup(i: nat)
    | Send(i: nat)

  /** How a run ended: no image row, an empty candidate list, the loop finished, or
      an exception reached the outer catch. */
  datatype Ending = NoImage | NoMatch | Completed | Aborted

  /** The rows a run inserted and the messages it delivered, in order. */
  datatype Outcome = Outcome(rows: seq<MatchRow>, sent: seq<Message>, ending: Ending)

  /** What handling one candidate did. */
  datatype Effect = Effect(row: Option<MatchRow>, sent: Option<Message>, aborted: bool)

  const DefaultCatName := "แมวของคุณ"
  const FoundTitlePrefix := "มีคนพบเจอแมวที่คล้ายกับ "
  const FoundBody := "ตรวจสอบโพสต์ที่พบ"
  const LostTitle := "แมวที่คุณพบเจอคล้ายกับโพสต์ตามหาของใครบางคน!"
  const LostBody := "ตรวจสอบโพสต์ที่ตามหาที่ match กับโพสต์ของคุณ"

  /** The row of `SELECT image_path ... LIMIT 1`: the first image row returned, if any. */
  function FirstImage(repo: Repository, postId: int, postType: PostType): (r: Option<string>)
  {
    var images := if postType == Found then repo.foundImages else repo.lostImages;
    if postId in images && |images[postId]| > 0 then Some(images[postId][0]) else None
  }

  /** The digit the counterpart's id text must start with: "1" (lost) for a found
      trigger, "2" (found) for a lost trigger. */
  function CounterpartPrefix(postType: PostType): string {
    if postType == Found then "1" else "2"
  }

  /** The cross-type filter on `String(parseInt(label))`. */
  predicate Accepts(postType: PostType, parsed: JsNumber) {
    StartsWith(NumberToString(parsed), CounterpartPrefix(postType))
  }

  lemma AcceptsOnlyNumbers(postType: PostType, parsed: JsNumber)
    requires Accepts(postType, parsed)
    ensures parsed.Num? && parsed.value > 0
  {
    var d := if postType == Found then 1 else 2;
    assert CounterpartPrefix(postType) == [DigitChar(d)];
    StartsWithDigitIff(parsed, d);
  }

  /** The match row for the new post and an accepted counterpart: the new post
      takes its own role and the counterpart the other. */
  function RowFor(postId: int, postType: PostType, counterpart: int, distance: Distance): MatchRow {
    if postType == Found then MatchRow(counterpart, postId, distance)
    else MatchRow(postId, counterpart, distance)
  }

  /** The data payload: the id of the NEW post, under the key naming its type. */
  function Payload(postType: PostType, postId: int): map<string, string> {
    if postType == Found then map["foundPostId" := IntToString(postId)]
    else map["lostPostId" := IntToString(postId)]
  }

  /** A token is used only when it is truthy: present and not empty. */
  predicate HasToken(repo: Repository, user: int) {
    user in repo.tokens && repo.tokens[user] != ""
  }

  function CatNameOf(repo: Repository, post: LostPost): string {
    if post.cat in repo.catNames then repo.catNames[post.cat] else DefaultCatName
  }

  /** The owner of the counterpart post named in a row, if that post exists. */
  function Recipient(repo: Repository, postType: PostType, row: MatchRow): Option<int> {
    if postType == Found then
      if row.lostPostId in repo.lostPosts then Some(repo.lostPosts[row.lostPostId].owner) else None
    else
      if row.foundPostId in repo.foundOwners then Some(repo.foundOwners[row.foundPostId]) else None
  }

  /** Once the row is in: message the recipient when their token is truthy; a failed
      send is caught and changes nothing. */
  function Notify(repo: Repository, owner: int, title: string, body: string, data: map<string, string>,
                  row: MatchRow, sendFails: bool): Effect
  {
    if !HasToken(repo, owner) || sendFails then Effect(Some(row), None, false)
    else Effect(Some(row), Some(Message(repo.tokens[owner], title, body, data)), false)
  }

  /** The found-trigger branch for an accepted candidate naming lost post `lostId`:
      insert the row, then look up the lost post, its cat's name, the new post's
      location and the owner's token, then send. */
  function FoundMatch(repo: Repository, postId: int, lostId: int, distance: Distance, i: nat,
                      fails: Query -> bool): Effect
  {
    if fails(InsertMatch(i)) then Effect(None, None, true)
    else
      var row := MatchRow(lostId, postId, distance);
      if fails(PostLookup(i)) then Effect(Some(row), None, true)
      else if lostId !in repo.lostPosts then Effect(Some(row), None, false)
      else NotifyLostOwner(repo, postId, repo.lostPosts[lostId], row, i, fails)
  }

  /** Once the lost post is found: look up its cat's name, the new post's location
      and the owner's token, then send. */
  function NotifyLostOwner(repo: Repository, postId: int, post: LostPost, row: MatchRow, i: nat,
                           fails: Query -> bool): Effect
  {
    if fails(CatNameLookup(i)) || fails(LocationLookup(i)) || fails(TokenLookup(i)) then
      Effect(Some(row), None, true)
    else
      Notify(repo, post.owner, FoundTitlePrefix + CatNameOf(repo, post) + "!", FoundBody,
             Payload(Found, postId), row, fails(Send(i)))
  }

  /** The lost-trigger branch for an accepted candidate naming found post `foundId`:
      insert the row, then look up the found post's owner and their token, then send. */
  function LostMatch(repo: Repository, postId: int, foundId: int, distance: Distance, i: nat,
                     fails: Query -> bool): Effect
  {
    if fails(InsertMatch(i)) then Effect(None, None, true)
    else
      var row := MatchRow(postId, foundId, distance);
      if fails(PostLookup(i)) then Effect(Some(row), None, true)
      else if foundId !in repo.foundOwners then Effect(Some(row), None, false)
      else NotifyFoundOwner(repo, postId, repo.foundOwners[foundId], row, i, fails)
  }

  /** Once the found post is found: look up its owner's token, then send. */
  function NotifyFoundOwner(repo: Repository, postId: int, owner: int, row: MatchRow, i: nat,
                            fails: Query -> bool): Effect
  {
    if fails(TokenLookup(i)) then Effect(Some(row), None, true)
    else Notify(repo, owner, LostTitle, LostBody, Payload(Lost, postId), row, fails(Send(i)))
  }

  /** One pass of the loop body for candidate `c` at position `i`. */
  function Handle(repo: Repository, postId: int, postType: PostType, c: Candidate, i: nat,
                  fails: Query -> bool): Effect
  {
    var parsed := ParseInt(c.postLabel);
    if !Accepts(postType, parsed) then Effect(None, None, false)
    else
      AcceptsOnlyNumbers(postType, parsed);
      if postType == Found then FoundMatch(repo, postId, parsed.value, c.distance, i, fails)
      else LostMatch(repo, postId, parsed.value, c.distance, i, fails)
  }

  /** The loop over the candidates' effects from position `i` on, in order: each
      candidate's row and message are kept, and the first candidate that aborts
      ends the loop, so the candidates after it are never looked at. */
  function Fold(effects: seq<Effect>, i: nat): (o: Outcome)
    ensures o.ending == Completed || o.ending == Aborted
    decreases |effects| - i
  {
    if i >= |effects| then Outcome([], [], Completed)
    else
      var e := effects[i];
      if e.aborted then Outcome(OptSeq(e.row), OptSeq(e.sent), Aborted)
      else
        var rest := Fold(effects, i + 1);
        Outcome(OptSeq(e.row) + rest.rows, OptSeq(e.sent) + rest.sent, rest.ending)
  }

  /** What the loop body would do for each candidate, by position. */
  function Effects(repo: Repository, postId: int, postType: PostType, cs: seq<Candidate>,
                   fails: Query -> bool): (es: seq<Effect>)
    ensures |es| == |cs|
    ensures forall k :: 0 <= k < |cs| ==> es[k] == Handle(repo, postId, postType, cs[k], k, fails)
  {
    seq(|cs|, k requires 0 <= k < |cs| => Handle(repo, postId, postType, cs[k], k, fails))
  }

  /** The `for` loop over the candidate list. */
  function Run(repo: Repository, postId: int, postType: PostType, cs: seq<Candidate>,
               fails: Query -> bool): Outcome
  {
    Fold(Effects(repo, postId, postType, cs, fails), 0)
  }

  /** One whole run of `identifyAndMatch(postId, postType)`; `identify` is the
      service's answer for an image path. */
  function Workflow(repo: Repository, postId: int, postType: PostType,
                    identify: string -> ScoreReply, fails: Query -> bool): Outcome
  {
    if fails(ImageLookup) then Outcome([], [], Aborted)
    else match FirstImage(repo, postId, postType)
      case None => Outcome([], [], NoImage)
      case Some(path) =>
        match identify(path)
        case Unreachable => Outcome([], [], Aborted)
        case Reply(result) =>
          var cs := result.GetOr([]);
          if cs == [] then Outcome([], [], NoMatch)
          else Run(repo, postId, postType, cs, fails)
  }

  class Backend {
    var lostPosts: map<int, LostPost>
    var foundOwners: map<int, int>
    var catNames: map<int, string>
    var tokens: map<int, string>
    var lostImages: map<int, seq<string>>
    var foundImages: map<int, seq<string>>
    /** The `matchpost` table in insertion order; the workflow only appends to it. */
    var matches: seq<MatchRow>
    /** The messages the messaging service accepted, in sending order. */
    var outbox: seq<Message>

    function Repo(): Repository
      reads this`lostPosts, this`foundOwners, this`catNames, this`tokens, this`lostImages, this`foundImages
    {
      Repository(lostPosts, foundOwners, catNames, tokens, lostImages, foundImages)
    }

    constructor (repo: Repository)
      ensures Repo() == repo && matches == [] && outbox == []
    {
      lostPosts, foundOwners, catNames := repo.lostPosts, repo.foundOwners, repo.catNames;
      tokens, lostImages, foundImages := repo.tokens, repo.lostImages, repo.foundImages;
      matches, outbox := [], [];
    }

    /** The loop body of `identifyAndMatch` for candidate `c` at position `i`;
        `aborted` says whether an exception escaped it. */
    method HandleCandidate(ghost repo: Repository, postId: int, postType: PostType, c: Candidate, i: nat,
                           fails: Query -> bool) returns (aborted: bool)
      requires repo == Repo()
      modifies this`matches, this`outbox
      ensures Repo() == repo
      ensures var e := Handle(repo, postId, postType, c, i, fails);
        && matches == old(matches) + OptSeq(e.row)
        && outbox == old(outbox) + OptSeq(e.sent)
        && aborted == e.aborted
    {
      var matchedPostId := ParseInt(c.postLabel);
      if postType == Found && StartsWith(NumberToString(matchedPostId), "1") {
        AcceptsOnlyNumbers(postType, matchedPostId);
        aborted := MatchFound(repo, postId, matchedPostId.value, c.distance, i, fails);
      } else if postType == Lost && StartsWith(NumberToString(matchedPostId), "2") {
        AcceptsOnlyNumbers(postType, matchedPostId);
        aborted := MatchLost(repo, postId, matchedPostId.value, c.distance, i, fails);
      } else {
        aborted := false;
      }
    }

    /** The found-trigger branch of the loop body. */
    method MatchFound(ghost repo: Repository, postId: int, lostId: int, distance: Distance, i: nat,
                      fails: Query -> bool) returns (aborted: bool)
      requires repo == Repo()
      modifies this`matches, this`outbox
      ensures Repo() == repo
      ensures var e := FoundMatch(repo, postId, lostId, distance, i, fails);
        && matches == old(matches) + OptSeq(e.row)
        && outbox == old(outbox) + OptSeq(e.sent)
        && aborted == e.aborted
    {
      if fails(InsertMatch(i)) { return true; }
      matches := matches + [MatchRow(lostId, postId, distance)];
      if fails(PostLookup(i)) { return true; }
      if lostId in lostPosts {
        aborted := NotifyLostOwnerStep(repo, postId, lostPosts[lostId], MatchRow(lostId, postId, distance), i, fails);
        return aborted;
      }
      return false;
    }

    /** The lookups and the send once the lost post is found. */
    method NotifyLostOwnerStep(ghost repo: Repository, postId: int, post: LostPost, ghost row: MatchRow,
                               i: nat, fails: Query -> bool) returns (aborted: bool)
      requires repo == Repo()
      modifies this`outbox
      ensures var e := NotifyLostOwner(repo, postId, post, row, i, fails);
        outbox == old(outbox) + OptSeq(e.sent) && aborted == e.aborted
    {
      if fails(CatNameLookup(i)) { return true; }
      var catName := DefaultCatName;
      if post.cat in catNames {
        catName := catNames[post.cat];
      }
      if fails(LocationLookup(i)) { return true; }
      if fails(TokenLookup(i)) { return true; }
      SendIfToken(repo, post.owner, FoundTitlePrefix + catName + "!", FoundBody,
                  map["foundPostId" := IntToString(postId)], row, fails(Send(i)));
      return false;
    }

    /** The lost-trigger branch of the loop body. */
    method MatchLost(ghost repo: Repository, postId: int, foundId: int, distance: Distance, i: nat,
                     fails: Query -> bool) returns (aborted: bool)
      requires repo == Repo()
      modifies this`matches, this`outbox
      ensures Repo() == repo
      ensures var e := LostMatch(repo, postId, foundId, distance, i, fails);
        && matches == old(matches) + OptSeq(e.row)
        && outbox == old(outbox) + OptSeq(e.sent)
        && aborted == e.aborted
    {
      if fails(InsertMatch(i)) { return true; }
      matches := matches + [MatchRow(postId, foundId, distance)];
      if fails(PostLookup(i)) { return true; }
      if foundId in foundOwners {
        aborted := NotifyFoundOwnerStep(repo, postId, foundOwners[foundId], MatchRow(postId, foundId, distance), i, fails);
        return aborted;
      }
      return false;
    }

    /** The token lookup and the send once the found post is found. */
    method NotifyFoundOwnerStep(ghost repo: Repository, postId: int, owner: int, ghost row: MatchRow,
                                i: nat, fails: Query -> bool) returns (aborted: bool)
      requires repo == Repo()
      modifies this`outbox
      ensures var e := NotifyFoundOwner(repo, postId, owner, row, i, fails);
        outbox == old(outbox) + OptSeq(e.sent) && aborted == e.aborted
    {
      if fails(TokenLookup(i)) { return true; }
      SendIfToken(repo, owner, LostTitle, LostBody, map["lostPostId" := IntToString(postId)],
                  row, fails(Send(i)));
      return false;
    }

    /** The send step: a message goes out only with a truthy token, and a failing
        send is caught. */
    method SendIfToken(ghost repo: Repository, owner: int, title: string, body: string,
                       data: map<string, string>, ghost row: MatchRow, sendFails: bool)
      requires repo == Repo()
      modifies this`outbox
      ensures outbox == old(outbox) + OptSeq(Notify(repo, owner, title, body, data, row, sendFails).sent)
    {
      if owner in tokens && tokens[owner] != "" {
        var message := Message(tokens[owner], title, body, data);
        if !sendFails {
          outbox := outbox + [message];
        }
      }
    }

    /** `identifyAndMatch(postId, postType)`: the tables are left as they are, the
        rows and messages of `Workflow` are appended, and `ending` says how it ended. */
    method IdentifyAndMatch(postId: int, postType: PostType, identify: string -> ScoreReply,
                            fails: Query -> bool) returns (ending: Ending)
      modifies this`matches, this`outbox
      ensures Repo() == old(Repo())
      ensures var o := Workflow(Repo(), postId, postType, identify, fails);
        && matches == old(matches) + o.rows
        && outbox == old(outbox) + o.sent
        && ending == o.ending
    {
      if fails(ImageLookup) { return Aborted; }
      var images := if postType == Found then foundImages else lostImages;
      if postId !in images || |images[postId]| == 0 { return NoImage; }
      var reply := identify(images[postId][0]);
      if reply.Unreachable? { return Aborted; }
      var cs := if reply.result.Some? then reply.result.value else [];
      if |cs| == 0 { return NoMatch; }
      ending := RunCandidates(postId, postType, cs, fails);
    }

    /** The `for` loop over the candidates, in order; an exception escaping a
        candidate abandons the rest. */
    method RunCandidates(postId: int, postType: PostType, cs: seq<Candidate>,
                         fails: Query -> bool) returns (ending: Ending)
      modifies this`matches, this`outbox
      ensures var o := Run(Repo(), postId, postType, cs, fails);
        && matches == old(matches) + o.rows
        && outbox == old(outbox) + o.sent
        && ending == o.ending
    {
      ghost var repo := Repo();
      ghost var effects := Effects(repo, postId, postType, cs, fails);
      ghost var whole := Fold(effects, 0);
      var i := 0;
      while i < |cs|
        invariant 0 <= i <= |cs| && Repo() == repo
        invariant matches + Fold(effects, i).rows == old(matches) + whole.rows
        invariant outbox + Fold(effects, i).sent == old(outbox) + whole.sent
        invariant Fold(effects, i).ending == whole.ending
      {
        ghost var e := effects[i];
        ghost var rest := Fold(effects, i + 1);
        ghost var m0, s0 := matches, outbox;
        var aborted := HandleCandidate(repo, postId, postType, cs[i], i, fails);
        if aborted {
          return Aborted;
        }
        ConcatAssoc(m0, OptSeq(e.row), rest.rows);
        ConcatAssoc(s0, OptSeq(e.sent), rest.sent);
        i := i + 1;
      }
      return Completed;
    }
  }

  /** The calls whose exception escapes a candidate's handling (everything but the send). */
  predicate AbortFault(fails: Query -> bool, i: nat) {
    fails(InsertMatch(i)) || fails(PostLookup(i)) || fails(CatNameLookup(i))
    || fails(LocationLookup(i)) || fails(TokenLookup(i))
  }

  /** Exactly the failures that end a candidate's handling with an exception, in
      the order the calls are reached: the insert, the counterpart post's lookup,
      then, once that post is found, the lookups before the send (cat name, location
      and token for a found trigger; token for a lost trigger). */
  predicate Escapes(repo: Repository, postType: PostType, counterpart: int, fails: Query -> bool, i: nat) {
    || fails(InsertMatch(i)) || fails(PostLookup(i))
    || (postType == Found && counterpart in repo.lostPosts
        && (fails(CatNameLookup(i)) || fails(LocationLookup(i)) || fails(TokenLookup(i))))
    || (postType == Lost && counterpart in repo.foundOwners && fails(TokenLookup(i)))
  }

  /** The id an accepted candidate names. */
  function CounterpartId(postType: PostType, c: Candidate): (id: int)
    requires Accepts(postType, ParseInt(c.postLabel))
    ensures id > 0
  {
    AcceptsOnlyNumbers(postType, ParseInt(c.postLabel));
    ParseInt(c.postLabel).value
  }

  /** Reference for the rows of a run in which nothing throws: one row per accepted
      candidate, in the order of the list, duplicates kept. It looks neither at the
      database nor at failures. */
  function AcceptedRows(postId: int, postType: PostType, cs: seq<Candidate>): seq<MatchRow>
  {
    if cs == [] then [] else AcceptedRow(postId, postType, cs[0]) + AcceptedRows(postId, postType, cs[1..])
  }

  /** The row an accepted candidate gives; nothing for a rejected one. */
  function AcceptedRow(postId: int, postType: PostType, c: Candidate): seq<MatchRow> {
    if Accepts(postType, ParseInt(c.postLabel))
    then [RowFor(postId, postType, CounterpartId(postType, c), c.distance)]
    else []
  }

  /** A candidate none of whose queries but the send throws inserts exactly its
      accepted row and does not abort. */
  lemma QuietCandidate(repo: Repository, postId: int, postType: PostType, c: Candidate, i: nat,
                       fails: Query -> bool)
    requires !AbortFault(fails, i)
    ensures !Handle(repo, postId, postType, c, i, fails).aborted
    ensures OptSeq(Handle(repo, postId, postType, c, i, fails).row) == AcceptedRow(postId, postType, c)
  {
    HandleRow(repo, postId, postType, c, i, fails);
  }

  lemma AcceptedRowsSplit(postId: int, postType: PostType, cs: seq<Candidate>, i: nat, k: nat)
    requires i < k <= |cs|
    ensures AcceptedRows(postId, postType, cs[i..k])
            == AcceptedRow(postId, postType, cs[i]) + AcceptedRows(postId, postType, cs[i + 1..k])
  {
    assert cs[i..k][0] == cs[i];
    assert cs[i..k][1..] == cs[i + 1..k];
  }

  /** What handling one candidate does to the match table and when it throws:
      a row exactly for an accepted candidate whose insert succeeds, with the roles
      set by the trigger's type; an exception exactly when an accepted candidate's
      insert or a lookup it reaches fails, never from the send; and a message only
      after the row. */
  lemma HandleRow(repo: Repository, postId: int, postType: PostType, c: Candidate, i: nat,
                  fails: Query -> bool)
    ensures var e := Handle(repo, postId, postType, c, i, fails);
      && (e.row.Some? <==> Accepts(postType, ParseInt(c.postLabel)) && !fails(InsertMatch(i)))
      && (e.row.Some? ==> e.row.value == RowFor(postId, postType, CounterpartId(postType, c), c.distance))
      && (e.aborted <==> Accepts(postType, ParseInt(c.postLabel))
                         && Escapes(repo, postType, CounterpartId(postType, c), fails, i))
      && (e.aborted ==> AbortFault(fails, i))
      && (e.sent.Some? ==> e.row.Some?)
  {
    var parsed := ParseInt(c.postLabel);
    if Accepts(postType, parsed) {
      AcceptsOnlyNumbers(postType, parsed);
      assert CounterpartId(postType, c) == parsed.value;
      if postType == Found {
        FoundMatchRow(repo, postId, parsed.value, c.distance, i, fails);
      } else {
        LostMatchRow(repo, postId, parsed.value, c.distance, i, fails);
      }
    }
  }

  /** The found-trigger branch inserts the row unless the insert throws; a failing
      insert ends it with nothing done, a failing lost-post lookup after the insert
      ends it with the row in, and once the lost post is found a failing cat-name,
      location or token lookup ends it too. Nothing else throws out of it. */
  lemma FoundMatchRow(repo: Repository, postId: int, lostId: int, distance: Distance, i: nat,
                      fails: Query -> bool)
    ensures var e := FoundMatch(repo, postId, lostId, distance, i, fails);
      && (e.row.Some? <==> !fails(InsertMatch(i)))
      && (e.row.Some? ==> e.row.value == MatchRow(lostId, postId, distance))
      && (fails(InsertMatch(i)) ==> e == Effect(None, None, true))
      && (!fails(InsertMatch(i)) && fails(PostLookup(i)) ==> e.aborted && e.row.Some? && e.sent.None?)
      && (e.aborted <==> Escapes(repo, Found, lostId, fails, i))
      && (e.sent.Some? ==> e.row.Some?)
  {
  }

  /** The lost-trigger branch, likewise: a failing insert or found-post lookup
      throws, and once the found post is found so does a failing token lookup. */
  lemma LostMatchRow(repo: Repository, postId: int, foundId: int, distance: Distance, i: nat,
                     fails: Query -> bool)
    ensures var e := LostMatch(repo, postId, foundId, distance, i, fails);
      && (e.row.Some? <==> !fails(InsertMatch(i)))
      && (e.row.Some? ==> e.row.value == MatchRow(postId, foundId, distance))
      && (fails(InsertMatch(i)) ==> e == Effect(None, None, true))
      && (!fails(InsertMatch(i)) && fails(PostLookup(i)) ==> e.aborted && e.row.Some? && e.sent.None?)
      && (e.aborted <==> Escapes(repo, Lost, foundId, fails, i))
      && (e.sent.Some? ==> e.row.Some?)
  {
  }

  /** A candidate the cross-type filter rejects (same type, another leading digit,
      NaN, negative) has no effect at all, whatever fails: no row, no lookup, no
      message. */
  lemma SkippedCandidate(repo: Repository, postId: int, postType: PostType, c: Candidate, i: nat,
                         fails: Query -> bool, fails': Query -> bool)
    requires !Accepts(postType, ParseInt(c.postLabel))
    ensures Handle(repo, postId, postType, c, i, fails) == Effect(None, None, false)
    ensures Handle(repo, postId, postType, c, i, fails) == Handle(repo, postId, postType, c, i, fails')
  {
  }

  /** Who gets a message and what it says: only the owner of the counterpart post
      named in the inserted row, only with a truthy token, carrying the new post's
      id; the found-trigger title names the lost cat, or 'แมวของคุณ' without one. */
  lemma HandleMessage(repo: Repository, postId: int, postType: PostType, c: Candidate, i: nat,
                      fails: Query -> bool)
    ensures var e := Handle(repo, postId, postType, c, i, fails);
      e.sent.Some? ==>
        && e.row.Some? && !e.aborted && !fails(Send(i))
        && var u := Recipient(repo, postType, e.row.value);
        && u.Some? && HasToken(repo, u.value)
        && e.sent.value.token == repo.tokens[u.value]
        && e.sent.value.data == Payload(postType, postId)
        && (postType == Found ==>
              && e.sent.value.title
                 == FoundTitlePrefix + CatNameOf(repo, repo.lostPosts[e.row.value.lostPostId]) + "!"
              && e.sent.value.body == FoundBody)
        && (postType == Lost ==> e.sent.value.title == LostTitle && e.sent.value.body == LostBody)
  {
    HandleRow(repo, postId, postType, c, i, fails);
  }

  /** When no insert or lookup fails, an accepted candidate's row is in and its
      recipient is messaged exactly when the counterpart post exists, its owner's
      token is truthy and the send succeeds; otherwise the row stands alone. */
  lemma HandleDelivers(repo: Repository, postId: int, postType: PostType, c: Candidate, i: nat,
                       fails: Query -> bool)
    requires Accepts(postType, ParseInt(c.postLabel)) && !AbortFault(fails, i)
    ensures var e := Handle(repo, postId, postType, c, i, fails);
      && !e.aborted
      && e.row == Some(RowFor(postId, postType, CounterpartId(postType, c), c.distance))
      && var u := Recipient(repo, postType, e.row.value);
      && (e.sent.Some? <==> u.Some? && HasToken(repo, u.value) && !fails(Send(i)))
  {
    HandleRow(repo, postId, postType, c, i, fails);
  }

  /** The loop from position `i` against the reference: its rows are always a prefix
      of the accepted rows (an exception only cuts the list short), all of them when
      the loop completes, and it completes when no insert or lookup fails. */
  lemma {:induction false} FoldRows(repo: Repository, postId: int, postType: PostType,
                                    cs: seq<Candidate>, fails: Query -> bool, i: nat)
    requires i <= |cs|
    ensures var o := Fold(Effects(repo, postId, postType, cs, fails), i);
            var a := AcceptedRows(postId, postType, cs[i..]);
      && o.rows <= a
      && (o.ending == Completed ==> o.rows == a)
      && ((forall k :: i <= k < |cs| ==> !AbortFault(fails, k)) ==> o.ending == Completed)
    decreases |cs| - i
  {
    if i < |cs| {
      var effects := Effects(repo, postId, postType, cs, fails);
      var e := effects[i];
      var head := AcceptedRow(postId, postType, cs[i]);
      var rest := AcceptedRows(postId, postType, cs[i + 1..]);
      FoldStep(effects, i);
      RowStep(repo, postId, postType, cs[i], i, fails);
      assert cs[i..][0] == cs[i];
      assert cs[i..][1..] == cs[i + 1..];
      assert AcceptedRows(postId, postType, cs[i..]) == head + rest;
      if e.aborted {
        PrefixExtend(OptSeq(e.row), head, rest);
      } else {
        FoldRows(repo, postId, postType, cs, fails, i + 1);
        PrefixConcat(head, Fold(effects, i + 1).rows, rest);
      }
    } else {
      assert cs[i..] == [];
    }
  }

  /** One candidate against its reference row: what it inserts is a prefix of its
      accepted row, all of it unless it aborts, and it aborts only on a failing
      insert or lookup. */
  lemma RowStep(repo: Repository, postId: int, postType: PostType, c: Candidate, i: nat,
                fails: Query -> bool)
    ensures var e := Handle(repo, postId, postType, c, i, fails);
      && OptSeq(e.row) <= AcceptedRow(postId, postType, c)
      && (!e.aborted ==> OptSeq(e.row) == AcceptedRow(postId, postType, c))
      && (!AbortFault(fails, i) ==> !e.aborted)
  {
    HandleRow(repo, postId, postType, c, i, fails);
  }

  lemma PrefixExtend<T>(x: seq<T>, a: seq<T>, b: seq<T>)
    requires x <= a
    ensures x <= a + b
  {
    assert (a + b)[..|x|] == a[..|x|];
  }

  /** The rows of a whole candidate loop: a prefix of the accepted rows, all of them
      when the loop completes, and the loop completes when nothing but sends fail. */
  lemma RunRows(repo: Repository, postId: int, postType: PostType, cs: seq<Candidate>,
                fails: Query -> bool)
    ensures var o := Run(repo, postId, postType, cs, fails);
      && o.rows <= AcceptedRows(postId, postType, cs)
      && (o.ending == Completed ==> o.rows == AcceptedRows(postId, postType, cs))
      && ((forall k :: 0 <= k < |cs| ==> !AbortFault(fails, k)) ==> o.ending == Completed)
  {
    FoldRows(repo, postId, postType, cs, fails, 0);
    assert cs[0..] == cs;
  }

  /** The Match invariant: a row links the new post, in its own role, with a
      counterpart id of the other type (a positive id whose leading digit is 1 for
      a lost post, 2 for a found post). */
  predicate CrossType(postId: int, postType: PostType, r: MatchRow) {
    if postType == Found then
      r.foundPostId == postId && r.lostPostId > 0 && LeadingDigit(r.lostPostId) == 1
    else
      r.lostPostId == postId && r.foundPostId > 0 && LeadingDigit(r.foundPostId) == 2
  }

  lemma AcceptedIsCrossType(postId: int, postType: PostType, c: Candidate)
    requires Accepts(postType, ParseInt(c.postLabel))
    ensures CrossType(postId, postType, RowFor(postId, postType, CounterpartId(postType, c), c.distance))
  {
    var d := if postType == Found then 1 else 2;
    assert CounterpartPrefix(postType) == [DigitChar(d)];
    StartsWithDigitIff(ParseInt(c.postLabel), d);
  }

  lemma {:induction false} AcceptedRowsCrossType(postId: int, postType: PostType, cs: seq<Candidate>)
    ensures forall r :: r in AcceptedRows(postId, postType, cs) ==> CrossType(postId, postType, r)
  {
    if cs != [] {
      AcceptedRowsCrossType(postId, postType, cs[1..]);
      if Accepts(postType, ParseInt(cs[0].postLabel)) {
        AcceptedIsCrossType(postId, postType, cs[0]);
      }
    }
  }

  /** Every row a run inserts links the new post with a post of the other type. */
  lemma RunRowsCrossType(repo: Repository, postId: int, postType: PostType, cs: seq<Candidate>,
                         fails: Query -> bool)
    ensures forall r :: r in Run(repo, postId, postType, cs, fails).rows ==> CrossType(postId, postType, r)
  {
    RunRows(repo, postId, postType, cs, fails);
    AcceptedRowsCrossType(postId, postType, cs);
  }

  /** Rows are not deduplicated: the same accepted candidate listed twice gives two
      identical rows. */
  lemma DuplicateCandidateTwoRows(postId: int, postType: PostType, c: Candidate)
    requires Accepts(postType, ParseInt(c.postLabel))
    ensures var r := RowFor(postId, postType, CounterpartId(postType, c), c.distance);
      AcceptedRows(postId, postType, [c, c]) == [r, r]
  {
    var r := RowFor(postId, postType, CounterpartId(postType, c), c.distance);
    assert [c, c][1..] == [c];
    assert [c][1..] == [];
    assert AcceptedRows(postId, postType, [c]) == [r] + AcceptedRows(postId, postType, []);
  }

  /** Message `m` went to the recipient of row `r`: the counterpart post's owner,
      whose token is truthy and is `m`'s, with the new post's id as payload. */
  predicate Delivers(repo: Repository, postId: int, postType: PostType, r: MatchRow, m: Message) {
    var u := Recipient(repo, postType, r);
    u.Some? && HasToken(repo, u.value) && m.token == repo.tokens[u.value]
    && m.data == Payload(postType, postId)
  }

  /** The messages of an outcome each went to the recipient of one of its rows, and
      there are no more messages than rows. */
  ghost predicate MessagesFollowRows(repo: Repository, postId: int, postType: PostType, o: Outcome) {
    && |o.sent| <= |o.rows|
    && forall m :: m in o.sent ==> exists r :: r in o.rows && Delivers(repo, postId, postType, r, m)
  }

  lemma ConsMessages(repo: Repository, postId: int, postType: PostType, e: Effect, rest: Outcome)
    requires e.sent.Some? ==> e.row.Some? && Delivers(repo, postId, postType, e.row.value, e.sent.value)
    requires MessagesFollowRows(repo, postId, postType, rest)
    ensures MessagesFollowRows(repo, postId, postType,
                               Outcome(OptSeq(e.row) + rest.rows, OptSeq(e.sent) + rest.sent, rest.ending))
  {
    var o := Outcome(OptSeq(e.row) + rest.rows, OptSeq(e.sent) + rest.sent, rest.ending);
    forall m | m in o.sent
      ensures exists r :: r in o.rows && Delivers(repo, postId, postType, r, m)
    {
      if m in OptSeq(e.sent) {
        assert e.row.value in o.rows;
      } else {
        var r :| r in rest.rows && Delivers(repo, postId, postType, r, m);
        assert r in o.rows;
      }
    }
  }

  lemma {:induction false} FoldMessages(repo: Repository, postId: int, postType: PostType,
                                        cs: seq<Candidate>, fails: Query -> bool, i: nat)
    requires i <= |cs|
    ensures MessagesFollowRows(repo, postId, postType, Fold(Effects(repo, postId, postType, cs, fails), i))
    decreases |cs| - i
  {
    if i < |cs| {
      var effects := Effects(repo, postId, postType, cs, fails);
      var e := effects[i];
      HandleMessage(repo, postId, postType, cs[i], i, fails);
      assert e.sent.Some? ==> e.row.Some? && Delivers(repo, postId, postType, e.row.value, e.sent.value);
      if e.aborted {
        ConsMessages(repo, postId, postType, e, Outcome([], [], Aborted));
      } else {
        FoldMessages(repo, postId, postType, cs, fails, i + 1);
        ConsMessages(repo, postId, postType, e, Fold(effects, i + 1));
      }
    }
  }

  /** Messages of a run: never more than rows, and each went to the recipient of one
      of the inserted rows, with a truthy token and the new post's id. */
  lemma RunMessages(repo: Repository, postId: int, postType: PostType, cs: seq<Candidate>,
                    fails: Query -> bool)
    ensures MessagesFollowRows(repo, postId, postType, Run(repo, postId, postType, cs, fails))
  {
    FoldMessages(repo, postId, postType, cs, fails, 0);
  }

  /** The message the owner of a counterpart post receives: for a found trigger the
      title names the lost post's cat and the payload is `foundPostId`, for a lost
      trigger the fixed title and body and the payload `lostPostId`. */
  function ExpectedMessage(repo: Repository, postId: int, postType: PostType, row: MatchRow,
                           token: string): (m: Message)
    requires postType == Found ==> row.lostPostId in repo.lostPosts
    ensures m.token == token && m.data == Payload(postType, postId)
  {
    if postType == Found then
      Message(token, FoundTitlePrefix + CatNameOf(repo, repo.lostPosts[row.lostPostId]) + "!", FoundBody,
              Payload(Found, postId))
    else Message(token, LostTitle, LostBody, Payload(Lost, postId))
  }

  /** Reference for the message of one candidate in a run where no insert or lookup
      throws: one message exactly when the candidate is accepted, its counterpart
      post exists, the owner's token is truthy and the send does not throw. */
  function DeliveredMessage(repo: Repository, postId: int, postType: PostType, c: Candidate, i: nat,
                            fails: Query -> bool): seq<Message>
  {
    if !Accepts(postType, ParseInt(c.postLabel)) then []
    else
      var row := RowFor(postId, postType, CounterpartId(postType, c), c.distance);
      match Recipient(repo, postType, row)
      case None => []
      case Some(u) =>
        if !HasToken(repo, u) || fails(Send(i)) then []
        else [ExpectedMessage(repo, postId, postType, row, repo.tokens[u])]
  }

  /** The reference messages of the candidates from position `i` on, in order. */
  function DeliveredFrom(repo: Repository, postId: int, postType: PostType, cs: seq<Candidate>,
                         fails: Query -> bool, i: nat): seq<Message>
    decreases |cs| - i
  {
    if i >= |cs| then []
    else DeliveredMessage(repo, postId, postType, cs[i], i, fails) + DeliveredFrom(repo, postId, postType, cs, fails, i + 1)
  }

  /** A candidate that does not abort sends exactly its reference message; one that
      aborts sends nothing. */
  lemma CandidateMessage(repo: Repository, postId: int, postType: PostType, c: Candidate, i: nat,
                         fails: Query -> bool)
    ensures var e := Handle(repo, postId, postType, c, i, fails);
      && (e.aborted ==> e.sent.None?)
      && (!e.aborted ==> OptSeq(e.sent) == DeliveredMessage(repo, postId, postType, c, i, fails))
  {
    var parsed := ParseInt(c.postLabel);
    HandleMessage(repo, postId, postType, c, i, fails);
    if Accepts(postType, parsed) {
      AcceptsOnlyNumbers(postType, parsed);
      assert CounterpartId(postType, c) == parsed.value;
      if postType == Found {
        FoundMessage(repo, postId, parsed.value, c.distance, i, fails);
      } else {
        LostMessage(repo, postId, parsed.value, c.distance, i, fails);
      }
    }
  }

  lemma FoundMessage(repo: Repository, postId: int, lostId: int, distance: Distance, i: nat,
                     fails: Query -> bool)
    ensures var e := FoundMatch(repo, postId, lostId, distance, i, fails);
            var row := MatchRow(lostId, postId, distance);
      !e.aborted ==>
        OptSeq(e.sent)
        == if lostId in repo.lostPosts && HasToken(repo, repo.lostPosts[lostId].owner) && !fails(Send(i))
           then [ExpectedMessage(repo, postId, Found, row, repo.tokens[repo.lostPosts[lostId].owner])]
           else []
  {
  }

  lemma LostMessage(repo: Repository, postId: int, foundId: int, distance: Distance, i: nat,
                    fails: Query -> bool)
    ensures var e := LostMatch(repo, postId, foundId, distance, i, fails);
            var row := MatchRow(postId, foundId, distance);
      !e.aborted ==>
        OptSeq(e.sent)
        == if foundId in repo.foundOwners && HasToken(repo, repo.foundOwners[foundId]) && !fails(Send(i))
           then [ExpectedMessage(repo, postId, Lost, row, repo.tokens[repo.foundOwners[foundId]])]
           else []
  {
  }

  lemma PrefixConcat<T>(a: seq<T>, x: seq<T>, y: seq<T>)
    requires x <= y
    ensures a + x <= a + y
  {
    assert (a + y)[..|a + x|] == a + x;
  }

  /** The loop's messages from position `i` against the reference: always a prefix
      of the reference messages, and all of them when the loop completes. */
  lemma {:induction false} FoldSent(repo: Repository, postId: int, postType: PostType,
                                    cs: seq<Candidate>, fails: Query -> bool, i: nat)
    requires i <= |cs|
    ensures var o := Fold(Effects(repo, postId, postType, cs, fails), i);
            var d := DeliveredFrom(repo, postId, postType, cs, fails, i);
      o.sent <= d && (o.ending == Completed ==> o.sent == d)
    decreases |cs| - i
  {
    if i < |cs| {
      var effects := Effects(repo, postId, postType, cs, fails);
      var e := effects[i];
      var head := DeliveredMessage(repo, postId, postType, cs[i], i, fails);
      var rest := DeliveredFrom(repo, postId, postType, cs, fails, i + 1);
      FoldStep(effects, i);
      CandidateMessage(repo, postId, postType, cs[i], i, fails);
      assert DeliveredFrom(repo, postId, postType, cs, fails, i) == head + rest;
      if !e.aborted {
        FoldSent(repo, postId, postType, cs, fails, i + 1);
        PrefixConcat(head, Fold(effects, i + 1).sent, rest);
      }
    }
  }

  /** The messages of a whole run: those of the reference, one per accepted
      candidate whose post, owner and truthy token exist and whose send succeeds,
      in candidate order; cut short only by an exception. When no insert or lookup
      throws, the run sends them all. */
  lemma RunSent(repo: Repository, postId: int, postType: PostType, cs: seq<Candidate>,
                fails: Query -> bool)
    ensures var o := Run(repo, postId, postType, cs, fails);
            var d := DeliveredFrom(repo, postId, postType, cs, fails, 0);
      && o.sent <= d
      && (o.ending == Completed ==> o.sent == d)
      && ((forall k :: 0 <= k < |cs| ==> !AbortFault(fails, k)) ==> o.sent == d)
  {
    FoldSent(repo, postId, postType, cs, fails, 0);
    RunRows(repo, postId, postType, cs, fails);
  }

  lemma {:induction false} FoldStopsAtAbort(effects: seq<Effect>, effects': seq<Effect>, i: nat, k: nat)
    requires i <= k < |effects| && k < |effects'| && effects[k].aborted
    requires forall j :: i <= j <= k ==> effects[j] == effects'[j]
    ensures Fold(effects, i) == Fold(effects', i)
    decreases k - i
  {
    if i < k {
      FoldStopsAtAbort(effects, effects', i + 1, k);
    }
  }

  /** After a candidate aborts, the rest of the list is never looked at: any list
      that agrees up to that candidate gives the same run. */
  lemma AbortIgnoresLaterCandidates(repo: Repository, postId: int, postType: PostType,
                                    cs: seq<Candidate>, cs': seq<Candidate>, fails: Query -> bool, k: nat)
    requires k < |cs| && k < |cs'| && cs[..k + 1] == cs'[..k + 1]
    requires Handle(repo, postId, postType, cs[k], k, fails).aborted
    ensures Run(repo, postId, postType, cs, fails) == Run(repo, postId, postType, cs', fails)
  {
    var effects := Effects(repo, postId, postType, cs, fails);
    var effects' := Effects(repo, postId, postType, cs', fails);
    forall j | 0 <= j <= k
      ensures effects[j] == effects'[j]
    {
      assert cs[j] == cs[..k + 1][j] == cs'[j];
    }
    FoldStopsAtAbort(effects, effects', 0, k);
  }

  lemma {:induction false} FoldAbortRows(repo: Repository, postId: int, postType: PostType,
                                         cs: seq<Candidate>, fails: Query -> bool, i: nat, k: nat)
    requires i <= k < |cs|
    requires forall j :: i <= j < k ==> !AbortFault(fails, j)
    requires Handle(repo, postId, postType, cs[k], k, fails).aborted
    ensures var o := Fold(Effects(repo, postId, postType, cs, fails), i);
      && o.ending == Aborted
      && o.rows == AcceptedRows(postId, postType, cs[i..k])
                   + OptSeq(Handle(repo, postId, postType, cs[k], k, fails).row)
    decreases k - i
  {
    var effects := Effects(repo, postId, postType, cs, fails);
    var tail := OptSeq(effects[k].row);
    if i == k {
      assert cs[i..k] == [];
      FoldStep(effects, i);
    } else {
      FoldAbortRows(repo, postId, postType, cs, fails, i + 1, k);
      QuietCandidate(repo, postId, postType, cs[i], i, fails);
      FoldStep(effects, i);
      AcceptedRowsSplit(postId, postType, cs, i, k);
      ConcatAssoc(OptSeq(effects[i].row), AcceptedRows(postId, postType, cs[i + 1..k]), tail);
    }
  }

  /** One step of the loop: an aborting candidate ends it with its own row, any other
      puts its row and message in front of those of the rest. */
  lemma FoldStep(effects: seq<Effect>, i: nat)
    requires i < |effects|
    ensures var e := effects[i];
            var o := Fold(effects, i);
            if e.aborted then o == Outcome(OptSeq(e.row), OptSeq(e.sent), Aborted)
            else var rest := Fold(effects, i + 1);
              o == Outcome(OptSeq(e.row) + rest.rows, OptSeq(e.sent) + rest.sent, rest.ending)
  {
  }

  /** When candidate `k` is the first to throw, the rows already inserted stay: those
      of the accepted candidates before it, plus its own if its insert went through
      before a lookup failed. */
  lemma AbortKeepsEarlierRows(repo: Repository, postId: int, postType: PostType,
                              cs: seq<Candidate>, fails: Query -> bool, k: nat)
    requires k < |cs|
    requires forall j :: 0 <= j < k ==> !AbortFault(fails, j)
    requires Handle(repo, postId, postType, cs[k], k, fails).aborted
    ensures var o := Run(repo, postId, postType, cs, fails);
      && o.ending == Aborted
      && o.rows == AcceptedRows(postId, postType, cs[..k])
                   + OptSeq(Handle(repo, postId, postType, cs[k], k, fails).row)
  {
    FoldAbortRows(repo, postId, postType, cs, fails, 0, k);
    assert cs[0..k] == cs[..k];
  }

  /** Partial isolation: when candidate `k` is accepted and one of its escaping calls
      fails, after `k` candidates none of whose inserts or lookups failed, the run
      ends Aborted with the earlier accepted rows, plus `k`'s own row exactly when
      its insert went through, and nothing from the candidates after it. */
  lemma EscapeAbortsRun(repo: Repository, postId: int, postType: PostType,
                        cs: seq<Candidate>, fails: Query -> bool, k: nat)
    requires k < |cs|
    requires forall j :: 0 <= j < k ==> !AbortFault(fails, j)
    requires Accepts(postType, ParseInt(cs[k].postLabel))
    requires Escapes(repo, postType, CounterpartId(postType, cs[k]), fails, k)
    ensures var o := Run(repo, postId, postType, cs, fails);
      && o.ending == Aborted
      && (fails(InsertMatch(k)) ==> o.rows == AcceptedRows(postId, postType, cs[..k]))
      && (!fails(InsertMatch(k)) ==>
            o.rows == AcceptedRows(postId, postType, cs[..k]) + AcceptedRow(postId, postType, cs[k]))
  {
    HandleRow(repo, postId, postType, cs[k], k, fails);
    AbortKeepsEarlierRows(repo, postId, postType, cs, fails, k);
  }

  /** When candidate `k` is the first to throw, the messages already sent stay sent:
      exactly the reference messages of the candidates before it, in order; `k`
      itself and the candidates after it send nothing. */
  lemma AbortKeepsEarlierMessages(repo: Repository, postId: int, postType: PostType,
                                  cs: seq<Candidate>, fails: Query -> bool, k: nat)
    requires k < |cs|
    requires forall j :: 0 <= j < k ==> !AbortFault(fails, j)
    requires Handle(repo, postId, postType, cs[k], k, fails).aborted
    ensures Run(repo, postId, postType, cs, fails).sent == DeliveredFrom(repo, postId, postType, cs[..k], fails, 0)
  {
    FoldAbortSent(repo, postId, postType, cs, fails, 0, k);
  }

  lemma {:induction false} FoldAbortSent(repo: Repository, postId: int, postType: PostType,
                                         cs: seq<Candidate>, fails: Query -> bool, i: nat, k: nat)
    requires i <= k < |cs|
    requires forall j :: i <= j < k ==> !AbortFault(fails, j)
    requires Handle(repo, postId, postType, cs[k], k, fails).aborted
    ensures Fold(Effects(repo, postId, postType, cs, fails), i).sent
            == DeliveredFrom(repo, postId, postType, cs[..k], fails, i)
    decreases k - i
  {
    var effects := Effects(repo, postId, postType, cs, fails);
    var prefix := cs[..k];
    FoldStep(effects, i);
    CandidateMessage(repo, postId, postType, cs[i], i, fails);
    if i < k {
      QuietCandidate(repo, postId, postType, cs[i], i, fails);
      FoldAbortSent(repo, postId, postType, cs, fails, i + 1, k);
      assert prefix[i] == cs[i];
      assert DeliveredFrom(repo, postId, postType, prefix, fails, i)
             == DeliveredMessage(repo, postId, postType, cs[i], i, fails)
                + DeliveredFrom(repo, postId, postType, prefix, fails, i + 1);
    } else {
      assert DeliveredFrom(repo, postId, postType, prefix, fails, i) == [];
    }
  }

  /** The early endings: a failing image query or identify call reaches the outer
      catch, a post without image rows or a reply without candidates ends quietly;
      none of them inserts a row or sends a message. */
  lemma EarlyEndings(repo: Repository, postId: int, postType: PostType,
                     identify: string -> ScoreReply, fails: Query -> bool)
    ensures var o := Workflow(repo, postId, postType, identify, fails);
      && (fails(ImageLookup) ==> o == Outcome([], [], Aborted))
      && (!fails(ImageLookup) && FirstImage(repo, postId, postType).None? ==> o == Outcome([], [], NoImage))
      && (!fails(ImageLookup) && FirstImage(repo, postId, postType).Some? ==>
            var reply := identify(FirstImage(repo, postId, postType).value);
            && (reply.Unreachable? ==> o == Outcome([], [], Aborted))
            && (reply.Reply? && (reply.result.None? || reply.result.value == []) ==>
                  o == Outcome([], [], NoMatch)))
      && (o.ending == NoImage || o.ending == NoMatch ==> o.rows == [] && o.sent == [])
  {
  }

  lemma FoundText()
    ensures IntToString(200005) == "200005"
  {
    assert NatToString(2) == "2";
    assert NatToString(20) == "20";
    assert NatToString(200) == "200";
    assert NatToString(2000) == "2000";
    assert NatToString(20000) == "20000";
  }

  lemma FoundLabel()
    ensures ParseInt("200005") == Num(200005) && Accepts(Lost, Num(200005))
  {
    FoundText();
    ParseIntOfIntToString(200005);
    assert NumberToString(Num(200005)) == "200005";
    assert "200005"[..1] == "2";
  }

  lemma LostText()
    ensures IntToString(100099) == "100099"
  {
    assert NatToString(1) == "1";
    assert NatToString(10) == "10";
    assert NatToString(100) == "100";
    assert NatToString(1000) == "1000";
    assert NatToString(10009) == "10009";
  }

  lemma LostLabel()
    ensures ParseInt("100099") == Num(100099) && !Accepts(Lost, Num(100099))
  {
    LostText();
    ParseIntOfIntToString(100099);
    assert NumberToString(Num(100099)) == "100099";
    assert "100099"[..1] == "1";
    assert !StartsWith("100099", "2");
  }

  lemma PostIdText()
    ensures IntToString(100027) == "100027"
  {
    assert NatToString(1) == "1";
    assert NatToString(10) == "10";
    assert NatToString(100) == "100";
    assert NatToString(1000) == "1000";
    assert NatToString(10002) == "10002";
  }

  /** The found candidate of the worked example is stored and its owner notified. */
  lemma FoundCandidateEffect(repo: Repository, d1: Distance)
    requires 200005 in repo.foundOwners && HasToken(repo, repo.foundOwners[200005])
    ensures Handle(repo, 100027, Lost, Candidate("200005", d1), 0, _ => false)
            == Effect(Some(MatchRow(100027, 200005, d1)),
                      Some(Message(repo.tokens[repo.foundOwners[200005]], LostTitle, LostBody,
                                   map["lostPostId" := "100027"])),
                      false)
  {
    FoundLabel();
    PostIdText();
  }

  /** The lost candidate of the worked example is skipped. */
  lemma LostCandidateEffect(repo: Repository, d2: Distance)
    ensures Handle(repo, 100027, Lost, Candidate("100099", d2), 1, _ => false) == Effect(None, None, false)
  {
    LostLabel();
  }

  /** The loop bodies of the worked example: the found candidate gives a row and a
      message, the lost candidate nothing. */
  lemma ScenarioEffects(repo: Repository, d1: Distance, d2: Distance)
    requires 200005 in repo.foundOwners && HasToken(repo, repo.foundOwners[200005])
    ensures Effects(repo, 100027, Lost, [Candidate("200005", d1), Candidate("100099", d2)], _ => false)
            == [Effect(Some(MatchRow(100027, 200005, d1)),
                       Some(Message(repo.tokens[repo.foundOwners[200005]], LostTitle, LostBody,
                                    map["lostPostId" := "100027"])),
                       false),
                Effect(None, None, false)]
  {
    FoundCandidateEffect(repo, d1);
    LostCandidateEffect(repo, d2);
  }

  /** The worked example of a lost post: post 100027's first image scores as found
      post 200005 and lost post 100099. Only the found candidate is kept, as one row
      with the lost post first, and the found post's owner is sent the lost post's id. */
  lemma LostPostScenario(repo: Repository, identify: string -> ScoreReply, d1: Distance, d2: Distance)
    requires 100027 in repo.lostImages && |repo.lostImages[100027]| > 0
    requires identify(repo.lostImages[100027][0])
             == Reply(Some([Candidate("200005", d1), Candidate("100099", d2)]))
    requires 200005 in repo.foundOwners && HasToken(repo, repo.foundOwners[200005])
    ensures Workflow(repo, 100027, Lost, identify, _ => false)
            == Outcome([MatchRow(100027, 200005, d1)],
                       [Message(repo.tokens[repo.foundOwners[200005]], LostTitle, LostBody,
                                map["lostPostId" := "100027"])],
                       Completed)
  {
    var row := MatchRow(100027, 200005, d1);
    var msg := Message(repo.tokens[repo.foundOwners[200005]], LostTitle, LostBody,
                       map["lostPostId" := "100027"]);
    ScenarioEffects(repo, d1, d2);
    DeliverThenSkip(row, msg);
  }

  /** A delivered candidate followed by a skipped one: one row, one message. */
  lemma DeliverThenSkip(row: MatchRow, msg: Message)
    ensures Fold([Effect(Some(row), Some(msg), false), Effect(None, None, false)], 0)
            == Outcome([row], [msg], Completed)
  {
    var effects := [Effect(Some(row), Some(msg), false), Effect(None, None, false)];
    assert Fold(effects, 2) == Outcome([], [], Completed);
    assert Fold(effects, 1) == Outcome([], [], Completed);
  }
}
