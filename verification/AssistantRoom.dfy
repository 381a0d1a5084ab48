/** Ensuring the default assistant room (apps/dashboard/lib/ensure-assistant-room.ts): what a
    single call does, and any number of calls interleaved at one server
    (apps/worker/src/routes/rooms-mutations-http.js:200-289). */
module AssistantRoom {
  import opened Common

  datatype Room = Room(id: string, name: string)

  const DISPLAY_NAME := "Assistant (general)"
  const LEGACY_ID := "assistant:general"

  function AssistantRoomId(projectId: string): (id: string) {
    "assistant-" + projectId
  }

  // ---- picking a room ----

  /** `rooms.find(p)`. */
  function FirstWhere(rooms: seq<Room>, p: Room -> bool): (r: Option<Room>) {
    if rooms == [] then None else if p(rooms[0]) then Some(rooms[0]) else FirstWhere(rooms[1..], p)
  }

  function WithId(id: string): (p: Room -> bool) {
    (r: Room) => r.id == id
  }

  function WithName(name: string): (p: Room -> bool) {
    (r: Room) => r.name == name
  }

  function OrElse(a: Option<Room>, b: Option<Room>): (r: Option<Room>) {
    if a.Some? then a else b
  }

  /** `pickAssistantRoom`. */
  function Pick(roomId: string, rooms: seq<Room>): (r: Option<Room>) {
    OrElse(FirstWhere(rooms, WithId(roomId)),
      OrElse(FirstWhere(rooms, WithId(LEGACY_ID)),
        OrElse(FirstWhere(rooms, WithName(DISPLAY_NAME)), FirstWhere(rooms, WithName(LEGACY_ID)))))
  }

  predicate IsMatch(roomId: string, r: Room) {
    || r.id == roomId || r.id == "assistant:general"
    || r.name == "Assistant (general)" || r.name == "assistant:general"
  }

  /** How well a room matches; less is better. */
  function Rank(roomId: string, r: Room): (rank: nat) {
    if r.id == roomId then 0 else if r.id == "assistant:general" then 1
    else if r.name == "Assistant (general)" then 2 else if r.name == "assistant:general" then 3 else 4
  }

  predicate FirstAt(rooms: seq<Room>, p: Room -> bool, i: nat) {
    i < |rooms| && p(rooms[i]) && forall j :: 0 <= j < i ==> !p(rooms[j])
  }

  lemma {:induction false} FirstWhereMeans(rooms: seq<Room>, p: Room -> bool) returns (i: nat)
    ensures FirstWhere(rooms, p).None? ==> forall j :: 0 <= j < |rooms| ==> !p(rooms[j])
    ensures FirstWhere(rooms, p).Some? ==> FirstAt(rooms, p, i) && FirstWhere(rooms, p) == Some(rooms[i])
  {
    i := 0;
    if rooms != [] && !p(rooms[0]) {
      var k := FirstWhereMeans(rooms[1..], p);
      i := k + 1;
      assert forall j :: 0 < j < |rooms| ==> rooms[j] == rooms[1..][j - 1];
    }
  }

  /** Nothing is picked exactly when no room matches; what is picked has the best rank of all
      and is the first of that rank. */
  lemma PickIsFirstOfBestRank(roomId: string, rooms: seq<Room>)
    ensures Pick(roomId, rooms).None? <==> forall j :: 0 <= j < |rooms| ==> !IsMatch(roomId, rooms[j])
    ensures Pick(roomId, rooms).Some? ==> exists i :: IsBest(roomId, rooms, i) && rooms[i] == Pick(roomId, rooms).value
  {
    hide FirstWhere;
    var a := FirstWhereMeans(rooms, WithId(roomId));
    var b := FirstWhereMeans(rooms, WithId(LEGACY_ID));
    var c := FirstWhereMeans(rooms, WithName(DISPLAY_NAME));
    var d := FirstWhereMeans(rooms, WithName(LEGACY_ID));
    var i := if FirstWhere(rooms, WithId(roomId)).Some? then a
      else if FirstWhere(rooms, WithId(LEGACY_ID)).Some? then b
      else if FirstWhere(rooms, WithName(DISPLAY_NAME)).Some? then c else d;
    if Pick(roomId, rooms).Some? { assert IsBest(roomId, rooms, i); }
  }

  predicate IsBest(roomId: string, rooms: seq<Room>, i: int) {
    && 0 <= i < |rooms| && Rank(roomId, rooms[i]) < 4
    && (forall j :: 0 <= j < |rooms| ==> Rank(roomId, rooms[i]) <= Rank(roomId, rooms[j]))
    && (forall j :: 0 <= j < i ==> Rank(roomId, rooms[i]) < Rank(roomId, rooms[j]))
  }

  // ---- recognising a refusal ----

  function Lower(s: string): (r: string)
    ensures |r| == |s| && forall i :: 0 <= i < |s| ==> r[i] == LowerChar(s[i])
  {
    seq(|s|, i requires 0 <= i < |s| => LowerChar(s[i]))
  }

  function LowerChar(c: char): (r: char) {
    if 'A' <= c <= 'Z' then (c as int + 32) as char else c
  }

  predicate StartsAt(s: string, part: string, i: nat) {
    i <= |s| && part <= s[i..]
  }

  predicate Includes(s: string, part: string) {
    exists i :: 0 <= i <= |s| && StartsAt(s, part, i)
  }

  /** `isRoomExistsError`. */
  predicate SaysExists(message: string) {
    var lower := Lower(message);
    Includes(lower, "room_id_already_exists") || Includes(lower, "unique constraint") || Includes(lower, "already exists")
  }

  /** The character is the letter or sign `t`, a letter in either case. */
  predicate IsCaseOf(c: char, t: char) {
    c == t || ('a' <= t <= 'z' && c as int == t as int - 32)
  }

  /** The text stands in the message at position `i`, in any ASCII case. */
  predicate StandsAt(message: string, text: string, i: nat) {
    i + |text| <= |message| && forall j :: 0 <= j < |text| ==> IsCaseOf(message[i + j], text[j])
  }

  ghost predicate Contains(message: string, text: string) {
    exists i :: StandsAt(message, text, i)
  }

  /** The message contains one of the three texts, in any ASCII case. */
  ghost predicate Mentions(message: string) {
    || Contains(message, "room_id_already_exists")
    || Contains(message, "unique constraint")
    || Contains(message, "already exists")
  }

  lemma IncludesIffContains(message: string, text: string)
    requires forall j :: 0 <= j < |text| ==> !('A' <= text[j] <= 'Z')
    ensures Includes(Lower(message), text) <==> Contains(message, text)
  {
    forall i: nat ensures i <= |message| && StartsAt(Lower(message), text, i) <==> StandsAt(message, text, i) {
      StartsIffStands(message, text, i);
    }
    hide StartsAt, StandsAt;
  }

  lemma StartsIffStands(message: string, text: string, i: nat)
    requires forall j :: 0 <= j < |text| ==> !('A' <= text[j] <= 'Z')
    ensures i <= |message| && StartsAt(Lower(message), text, i) <==> StandsAt(message, text, i)
  {
    var lower := Lower(message);
    if i + |text| <= |message| {
      assert forall j :: 0 <= j < |text| ==> lower[i..][j] == lower[i + j];
      forall j | 0 <= j < |text| ensures lower[i + j] == text[j] <==> IsCaseOf(message[i + j], text[j]) {}
      if StandsAt(message, text, i) { assert lower[i..][..|text|] == text; }
    }
  }

  /** Exactly the messages that contain one of the three texts are recognised. */
  lemma SaysExistsIffMentions(message: string)
    ensures SaysExists(message) <==> Mentions(message)
  {
    hide Includes, Contains;
    IncludesIffContains(message, "room_id_already_exists");
    IncludesIffContains(message, "unique constraint");
    IncludesIffContains(message, "already exists");
  }

  const REFUSAL := "room_id_already_exists"

  /** The message `fetchWorkerJson` makes of the server's refusal, with its trace id if any. */
  function RefusalMessage(trace: Option<string>): (message: string) {
    if trace.Some? then REFUSAL + " (trace: " + trace.value + ")" else REFUSAL
  }

  /** A refusal is recognised whatever trace id goes with it. */
  lemma RefusalSaysExists(trace: Option<string>)
    ensures SaysExists(RefusalMessage(trace)) && Mentions(RefusalMessage(trace))
  {
    SaysExistsIffMentions(RefusalMessage(trace));
    var message := RefusalMessage(trace);
    var lower := Lower(message);
    forall i | 0 <= i < |REFUSAL| ensures lower[i] == REFUSAL[i] {
      assert message[i] == REFUSAL[i];
      RefusalIsLower(i);
    }
    assert StartsAt(lower, REFUSAL, 0) by {
      assert lower[0..] == lower && lower[..|REFUSAL|] == REFUSAL;
    }
  }

  lemma RefusalIsLower(i: nat)
    requires i < |REFUSAL|
    ensures LowerChar(REFUSAL[i]) == REFUSAL[i]
  {
  }

  // ---- one call ----

  /** What the server does when the id is taken: refuse, or answer with the room it has. */
  datatype Policy = Refuses(trace: Option<string>) | Adopts

  datatype Reply = Success(room: Room) | Refused(message: string)

  /** The rooms of the project, by id. */
  type Rooms = map<string, string>

  /** The server's atomic insert. */
  function Created(policy: Policy, rooms: Rooms, id: string): (r: (Rooms, Reply)) {
    if id !in rooms then (rooms[id := DISPLAY_NAME], Success(Room(id, DISPLAY_NAME)))
    else match policy
      case Refuses(trace) => (rooms, Refused(RefusalMessage(trace)))
      case Adopts => (rooms, Success(Room(id, rooms[id])))
  }

  datatype Phase =
    | Listing
    | Posting
    | Awaiting(reply: Reply)
    | Relisting
    | Returned(room: Room, created: bool)
    | Threw(message: string)
    | GaveUp

  function AfterListing(roomId: string, rooms: seq<Room>): (p: Phase) {
    var existing := Pick(roomId, rooms);
    if existing.Some? then Returned(existing.value, false) else Posting
  }

  function AfterError(message: string): (p: Phase) {
    if SaysExists(message) then Relisting else Threw(message)
  }

  lemma AfterErrorMeans(message: string)
    ensures AfterError(message) == if Mentions(message) then Relisting else Threw(message)
  {
    hide SaysExists, Mentions;
    SaysExistsIffMentions(message);
  }

  function AfterReply(reply: Reply): (p: Phase) {
    match reply
    case Success(room) => Returned(room, true)
    case Refused(message) => AfterError(message)
  }

  function AfterRelisting(roomId: string, rooms: seq<Room>): (p: Phase) {
    var existing := Pick(roomId, rooms);
    if existing.Some? then Returned(existing.value, false) else GaveUp
  }

  /** What becomes of a request to create: it never arrives, its reply is lost, or neither. */
  datatype Fate = NeverArrives(error: string) | ReplyLost(error: string) | Answered

  class Server {
    var rooms: Rooms

    constructor (rooms: Rooms)
      ensures this.rooms == rooms
    {
      this.rooms := rooms;
    }

    method CreateRoom(policy: Policy, id: string) returns (reply: Reply)
      modifies this
      ensures (rooms, reply) == Created(policy, old(rooms), id)
    {
      if id !in rooms {
        rooms := rooms[id := DISPLAY_NAME];
        return Success(Room(id, DISPLAY_NAME));
      }
      match policy
      case Refuses(trace) => reply := Refused(RefusalMessage(trace));
      case Adopts => reply := Success(Room(id, rooms[id]));
    }

    /** `ensureAssistantRoom`, with what its two lists answer and what becomes of its post. */
    method EnsureAssistantRoom(
      policy: Policy, projectId: string, first: Answer<seq<Room>>, fate: Fate, second: Answer<seq<Room>>)
      returns (end: Phase)
      modifies this
      ensures (rooms, end) == Ensured(policy, old(rooms), projectId, first, fate, second)
      ensures end.Returned? || end.Threw? || end.GaveUp?
    {
      hide SaysExists, Pick;
      var roomId := AssistantRoomId(projectId);
      if first.Throws? {
        return Threw(first.error);
      }
      var existingBefore := Pick(roomId, first.value);
      if existingBefore.Some? {
        return Returned(existingBefore.value, false);
      }
      var error;
      if fate.NeverArrives? {
        error := fate.error;
      } else {
        var reply := CreateRoom(policy, roomId);
        if fate.ReplyLost? {
          error := fate.error;
        } else if reply.Success? {
          return Returned(reply.room, true);
        } else {
          error := reply.message;
        }
      }
      if !SaysExists(error) {
        return Threw(error);
      }
      if second.Throws? {
        return Threw(second.error);
      }
      var existing := Pick(roomId, second.value);
      if existing.Some? {
        return Returned(existing.value, false);
      }
      end := GaveUp;
    }
  }

  /** A call that nothing interrupts. */
  function Ensured(
    policy: Policy, rooms: Rooms, projectId: string, first: Answer<seq<Room>>, fate: Fate, second: Answer<seq<Room>>)
    : (r: (Rooms, Phase))
  {
    var roomId := AssistantRoomId(projectId);
    if first.Throws? then (rooms, Threw(first.error))
    else
      var listed := AfterListing(roomId, first.value);
      if listed.Returned? then (rooms, listed)
      else
        var posted := if fate.NeverArrives? then (rooms, Refused(fate.error)) else Created(policy, rooms, roomId);
        var replied := if fate.ReplyLost? then AfterError(fate.error) else AfterReply(posted.1);
        if !replied.Relisting? then (posted.0, replied)
        else if second.Throws? then (posted.0, Threw(second.error))
        else (posted.0, AfterRelisting(roomId, second.value))
  }

  // ---- calls interleaved ----

  datatype Action =
    | ListAnswers(listing: seq<Room>)
    | ListFails(error: string)
    | PostArrives
    | PostFails(error: string)
    | ReplyArrives
    | ReplyFails(error: string)

  /** A step of one of the calls, or a room somebody else creates. */
  datatype Event = Of(call: nat, action: Action) | OtherRoom(id: string, name: string)

  /** The rooms at the server, where each call has got, and whose post made the room. */
  datatype State = State(rooms: Rooms, phases: map<nat, Phase>, creator: Option<nat>) {
    function At(call: nat): (p: Phase) {
      if call in phases then phases[call] else Listing
    }

    function Goes(call: nat, p: Phase): (s: State)
      ensures forall c :: s.At(c) == if c == call then p else At(c)
      ensures s.rooms == rooms && s.creator == creator
    {
      this.(phases := phases[call := p])
    }
  }

  /** The server lists all its rooms, in whatever order.  The worker of this repository does so
      only for roles that bypass room membership, and from a cache of 30 seconds
      (apps/worker/src/routes/rooms-list-export-http.js:62-76). */
  ghost predicate Lists(listing: seq<Room>, rooms: Rooms) {
    forall r: Room :: r in listing <==> r.id in rooms && rooms[r.id] == r.name
  }

  /** What may happen next: a call takes its own next step, on what the server has now. */
  ghost predicate Enabled(roomId: string, s: State, e: Event) {
    match e
    case OtherRoom(id, name) => id !in s.rooms && !IsMatch(roomId, Room(id, name))
    case Of(call, ListAnswers(listing)) => (s.At(call).Listing? || s.At(call).Relisting?) && Lists(listing, s.rooms)
    case Of(call, ListFails(_)) => s.At(call).Listing? || s.At(call).Relisting?
    case Of(call, PostArrives) => s.At(call).Posting?
    case Of(call, PostFails(_)) => s.At(call).Posting?
    case Of(call, ReplyArrives) => s.At(call).Awaiting?
    case Of(call, ReplyFails(_)) => s.At(call).Awaiting?
  }

  function Next(policy: Policy, roomId: string, s: State, e: Event): (r: State) {
    match e
    case OtherRoom(id, name) => s.(rooms := s.rooms[id := name])
    case Of(call, action) =>
      match action
      case ListAnswers(listing) =>
        s.Goes(call, if s.At(call).Listing? then AfterListing(roomId, listing) else AfterRelisting(roomId, listing))
      case ListFails(error) => s.Goes(call, Threw(error))
      case PostArrives =>
        var (rooms, reply) := Created(policy, s.rooms, roomId);
        s.Goes(call, Awaiting(reply)).(rooms := rooms, creator := if roomId in s.rooms then s.creator else Some(call))
      case PostFails(error) => s.Goes(call, AfterError(error))
      case ReplyArrives => if s.At(call).Awaiting? then s.Goes(call, AfterReply(s.At(call).reply)) else s
      case ReplyFails(error) => s.Goes(call, AfterError(error))
  }

  function Run(policy: Policy, roomId: string, rooms: Rooms, events: seq<Event>): (s: State) {
    if events == [] then State(rooms, map[], None)
    else Next(policy, roomId, Run(policy, roomId, rooms, events[..|events| - 1]), events[|events| - 1])
  }

  ghost predicate IsRun(policy: Policy, roomId: string, rooms: Rooms, events: seq<Event>) {
    events == [] ||
    var front := events[..|events| - 1];
    IsRun(policy, roomId, rooms, front) && Enabled(roomId, Run(policy, roomId, rooms, front), events[|events| - 1])
  }

  /** Some post of the call failed before it reached the server, with a message that says the
      room exists. */
  ghost predicate Misled(events: seq<Event>, call: nat) {
    exists message :: Of(call, PostFails(message)) in events && Mentions(message)
  }

  ghost predicate LostReply(events: seq<Event>, call: nat) {
    exists message :: Of(call, ReplyFails(message)) in events
  }

  ghost predicate NoMatch(roomId: string, rooms: Rooms) {
    forall id :: id in rooms ==> !IsMatch(roomId, Room(id, rooms[id]))
  }

  // ---- the invariant ----

  /** The only room that matches is the assistant room, and some call's post made it. */
  ghost predicate OneRoom(roomId: string, s: State) {
    && (forall id :: id in s.rooms && IsMatch(roomId, Room(id, s.rooms[id])) ==>
          id == roomId && s.rooms[id] == DISPLAY_NAME)
    && (s.creator.Some? <==> roomId in s.rooms)
  }

  ghost predicate PhaseFits(policy: Policy, roomId: string, s: State, events: seq<Event>, call: nat) {
    var room := Room(roomId, DISPLAY_NAME);
    match s.At(call)
    case Listing => !LostReply(events, call)
    case Posting => !LostReply(events, call)
    case Awaiting(Success(r)) => !LostReply(events, call) && r == room && roomId in s.rooms && (policy.Refuses? ==> s.creator == Some(call))
    case Awaiting(Refused(message)) => !LostReply(events, call) && Mentions(message) && roomId in s.rooms && policy.Refuses?
    case Relisting => roomId in s.rooms || Misled(events, call)
    case Returned(r, created) =>
      r == room && roomId in s.rooms && (policy.Refuses? && created ==> s.creator == Some(call))
    case Threw(_) => true
    case GaveUp => Misled(events, call)
  }

  /** Where the call whose post made the room has got. */
  ghost predicate CreatorFits(s: State, events: seq<Event>) {
    s.creator.Some? ==>
      var p := s.At(s.creator.value);
      if LostReply(events, s.creator.value) then
        p.Relisting? || p.Threw? || p.GaveUp? || (p.Returned? && !p.created)
      else (p.Awaiting? && p.reply.Success?) || (p.Returned? && p.created)
  }

  ghost predicate Invariant(policy: Policy, roomId: string, s: State, events: seq<Event>) {
    OneRoom(roomId, s) && (forall call :: PhaseFits(policy, roomId, s, events, call)) && CreatorFits(s, events)
  }

  /** With one room that can match, a list finds it exactly when it is there. */
  lemma PickFindsTheRoom(roomId: string, s: State, listing: seq<Room>)
    requires OneRoom(roomId, s) && Lists(listing, s.rooms)
    ensures Pick(roomId, listing) == if roomId in s.rooms then Some(Room(roomId, DISPLAY_NAME)) else None
  {
    hide Pick;
    PickIsFirstOfBestRank(roomId, listing);
    if roomId in s.rooms {
      assert Room(roomId, s.rooms[roomId]) in listing && IsMatch(roomId, Room(roomId, s.rooms[roomId]));
    }
    if Pick(roomId, listing).Some? {
      var i :| IsBest(roomId, listing, i) && listing[i] == Pick(roomId, listing).value;
      assert listing[i] in listing && IsMatch(roomId, listing[i]);
    }
  }

  lemma Grows(events: seq<Event>, e: Event, c: nat)
    ensures Misled(events, c) ==> Misled(events + [e], c)
    ensures LostReply(events + [e], c) <==> LostReply(events, c) || (e.Of? && e.call == c && e.action.ReplyFails?)
    ensures e.Of? && e.call == c && e.action.PostFails? && Mentions(e.action.error) ==> Misled(events + [e], c)
  {
    hide Mentions;
    var longer := events + [e];
    assert forall x :: x in longer <==> x in events || x == e;
    assert e in longer;
    if message :| Of(c, PostFails(message)) in events && Mentions(message) {
      assert Of(c, PostFails(message)) in longer;
    }
    if message :| Of(c, ReplyFails(message)) in events {
      assert Of(c, ReplyFails(message)) in longer;
    }
    if e.Of? && e.call == c && e.action.ReplyFails? { assert e == Of(c, ReplyFails(e.action.error)); }
    if e.Of? && e.call == c && e.action.PostFails? { assert e == Of(c, PostFails(e.action.error)); }
  }

  lemma RoomsNext(policy: Policy, roomId: string, s: State, e: Event)
    requires OneRoom(roomId, s) && Enabled(roomId, s, e)
    ensures
      var next := Next(policy, roomId, s, e);
      && OneRoom(roomId, next) && (roomId in s.rooms ==> roomId in next.rooms)
      && (e.Of? && e.action.PostArrives? ==> roomId in next.rooms)
      && (s.creator.Some? ==> next.creator == s.creator)
  {
    hide Pick, SaysExists, Mentions;
  }

  /** Where an error a call meets in this step takes it. */
  lemma ErrorsOf(s: State, e: Event)
    requires e.Of?
    ensures e.action.PostFails? || e.action.ReplyFails? ==>
      AfterError(e.action.error) == if Mentions(e.action.error) then Relisting else Threw(e.action.error)
    ensures s.At(e.call).Awaiting? && s.At(e.call).reply.Refused? ==>
      var message := s.At(e.call).reply.message;
      AfterError(message) == if Mentions(message) then Relisting else Threw(message)
  {
    hide Mentions, SaysExists;
    if e.action.PostFails? || e.action.ReplyFails? { AfterErrorMeans(e.action.error); }
    if s.At(e.call).Awaiting? && s.At(e.call).reply.Refused? { AfterErrorMeans(s.At(e.call).reply.message); }
  }

  /** The phase of one call after a step of any call. */
  lemma PhaseNext(policy: Policy, roomId: string, s: State, events: seq<Event>, e: Event, c: nat)
    requires Invariant(policy, roomId, s, events) && Enabled(roomId, s, e)
    ensures PhaseFits(policy, roomId, Next(policy, roomId, s, e), events + [e], c)
  {
    hide Pick, SaysExists, Mentions, Misled, LostReply;
    Grows(events, e, c);
    RoomsNext(policy, roomId, s, e);
    assert PhaseFits(policy, roomId, s, events, c);
    if e.Of? && e.call == c {
      if e.action.ListAnswers? { PickFindsTheRoom(roomId, s, e.action.listing); }
      if policy.Refuses? { RefusalSaysExists(policy.trace); }
      ErrorsOf(s, e);
    }
  }

  lemma CreatorNext(policy: Policy, roomId: string, s: State, events: seq<Event>, e: Event)
    requires Invariant(policy, roomId, s, events) && Enabled(roomId, s, e)
    ensures CreatorFits(Next(policy, roomId, s, e), events + [e])
  {
    hide Pick, SaysExists, Mentions, Misled, LostReply, IsMatch, Lists, OneRoom;
    RoomsNext(policy, roomId, s, e);
    var next := Next(policy, roomId, s, e);
    if next.creator.Some? {
      var c := next.creator.value;
      Grows(events, e, c);
      assert PhaseFits(policy, roomId, s, events, c);
    }
  }

  lemma {:induction false} RunKeepsInvariant(policy: Policy, roomId: string, rooms: Rooms, events: seq<Event>)
    requires NoMatch(roomId, rooms) && IsRun(policy, roomId, rooms, events)
    ensures Invariant(policy, roomId, Run(policy, roomId, rooms, events), events)
  {
    if events != [] {
      var front, e := events[..|events| - 1], events[|events| - 1];
      var s := Run(policy, roomId, rooms, front);
      RunKeepsInvariant(policy, roomId, rooms, front);
      hide Invariant, PhaseFits, CreatorFits, OneRoom, Next, Enabled;
      assert Enabled(roomId, s, e);
      assert front + [e] == events;
      InvariantNext(policy, roomId, s, front, e);
    }
  }

  lemma InvariantNext(policy: Policy, roomId: string, s: State, events: seq<Event>, e: Event)
    requires Invariant(policy, roomId, s, events) && Enabled(roomId, s, e)
    ensures Invariant(policy, roomId, Next(policy, roomId, s, e), events + [e])
  {
    hide PhaseFits, CreatorFits, Next, Enabled;
    RoomsNext(policy, roomId, s, e);
    CreatorNext(policy, roomId, s, events, e);
    forall c ensures PhaseFits(policy, roomId, Next(policy, roomId, s, e), events + [e], c) {
      PhaseNext(policy, roomId, s, events, e, c);
    }
  }

  // ---- what every interleaving keeps ----

  /** Whatever the server does with a taken id: no room but the assistant room ever matches,
      and every call that returns a room returns that one. */
  lemma AllReturnTheOneRoom(policy: Policy, roomId: string, rooms: Rooms, events: seq<Event>)
    requires NoMatch(roomId, rooms) && IsRun(policy, roomId, rooms, events)
    ensures
      var s := Run(policy, roomId, rooms, events);
      && (forall id :: id in s.rooms && IsMatch(roomId, Room(id, s.rooms[id])) ==> id == roomId)
      && (forall c: nat :: s.At(c).Returned? ==> s.At(c).room == Room(roomId, DISPLAY_NAME) && roomId in s.rooms)
  {
    hide Run, IsRun, NoMatch;
    RunKeepsInvariant(policy, roomId, rooms, events);
    var s := Run(policy, roomId, rooms, events);
    forall c: nat | s.At(c).Returned? ensures s.At(c).room == Room(roomId, DISPLAY_NAME) && roomId in s.rooms {
      assert PhaseFits(policy, roomId, s, events, c);
    }
  }

  // ---- the final throw ----

  ghost predicate Posted(events: seq<Event>) {
    exists c :: Of(c, PostArrives) in events
  }

  /** Event `n` is a list the call takes after a post of it that failed on the way with a
      message that says the room exists, and before any post has reached the server. */
  ghost predicate GivesUpAt(events: seq<Event>, call: nat, n: nat) {
    && n < |events| && events[n].Of? && events[n].call == call && events[n].action.ListAnswers?
    && Misled(events[..n], call) && !Posted(events[..n])
  }

  ghost predicate GivesUp(events: seq<Event>, call: nat) {
    exists n :: GivesUpAt(events, call, n)
  }

  /** What the phase of a call says about the events so far. */
  ghost predicate Accounts(p: Phase, events: seq<Event>, call: nat) {
    && (p.GaveUp? <==> GivesUp(events, call))
    && (p.Listing? || p.Posting? || p.Awaiting? ==> !Misled(events, call))
  }

  lemma GivesUpSnoc(events: seq<Event>, e: Event, c: nat)
    ensures GivesUp(events + [e], c) <==>
      GivesUp(events, c) || (e.Of? && e.call == c && e.action.ListAnswers? && Misled(events, c) && !Posted(events))
  {
    hide Misled, Posted;
    var longer := events + [e];
    assert longer[..|events|] == events;
    assert forall n :: 0 <= n < |events| ==> longer[..n] == events[..n] && longer[n] == events[n];
    if GivesUp(events, c) {
      var n: nat :| GivesUpAt(events, c, n);
      assert GivesUpAt(longer, c, n);
    }
    if e.Of? && e.call == c && e.action.ListAnswers? && Misled(events, c) && !Posted(events) {
      assert GivesUpAt(longer, c, |events|);
    }
    if GivesUp(longer, c) {
      var n: nat :| GivesUpAt(longer, c, n);
      assert n < |events| ==> GivesUpAt(events, c, n);
    }
  }

  lemma MisledSnoc(events: seq<Event>, e: Event, c: nat)
    ensures Misled(events + [e], c) <==>
      Misled(events, c) || (e.Of? && e.call == c && e.action.PostFails? && Mentions(e.action.error))
  {
    hide Mentions;
    Grows(events, e, c);
    assert forall x :: x in events + [e] <==> x in events || x == e;
  }

  lemma PostedSnoc(events: seq<Event>, e: Event)
    ensures Posted(events + [e]) <==> Posted(events) || (e.Of? && e.action.PostArrives?)
  {
    assert forall x :: x in events + [e] <==> x in events || x == e;
    if e.Of? && e.action.PostArrives? { assert Of(e.call, PostArrives) in events + [e]; }
    if c :| Of(c, PostArrives) in events { assert Of(c, PostArrives) in events + [e]; }
  }

  lemma AccountsNext(policy: Policy, roomId: string, s: State, events: seq<Event>, e: Event, c: nat)
    requires Invariant(policy, roomId, s, events) && Enabled(roomId, s, e)
    requires (roomId in s.rooms <==> Posted(events)) && Accounts(s.At(c), events, c)
    ensures Accounts(Next(policy, roomId, s, e).At(c), events + [e], c)
  {
    hide Pick, SaysExists, Mentions, Misled, LostReply, GivesUp, Posted, IsMatch, Lists, OneRoom;
    GivesUpSnoc(events, e, c);
    MisledSnoc(events, e, c);
    assert PhaseFits(policy, roomId, s, events, c);
    if e.Of? && e.call == c && e.action.ListAnswers? { PickFindsTheRoom(roomId, s, e.action.listing); }
  }

  lemma RoomIffPosted(policy: Policy, roomId: string, s: State, events: seq<Event>, e: Event)
    requires Enabled(roomId, s, e) && (roomId in s.rooms <==> Posted(events))
    ensures roomId in Next(policy, roomId, s, e).rooms <==> Posted(events + [e])
  {
    hide Posted, SaysExists, Mentions, Pick, Lists;
    PostedSnoc(events, e);
  }

  lemma {:induction false} RunAccounts(policy: Policy, roomId: string, rooms: Rooms, events: seq<Event>)
    requires NoMatch(roomId, rooms) && IsRun(policy, roomId, rooms, events)
    ensures
      var s := Run(policy, roomId, rooms, events);
      && (roomId in s.rooms <==> Posted(events))
      && forall c: nat :: Accounts(s.At(c), events, c)
  {
    if events == [] {
      NothingHappened(policy, roomId, rooms);
    } else {
      var front, e := events[..|events| - 1], events[|events| - 1];
      var s := Run(policy, roomId, rooms, front);
      RunAccounts(policy, roomId, rooms, front);
      RunKeepsInvariant(policy, roomId, rooms, front);
      assert Enabled(roomId, s, e);
      assert front + [e] == events;
      hide *;
      RunLast(policy, roomId, rooms, events);
      RoomIffPosted(policy, roomId, s, front, e);
      forall c: nat ensures Accounts(Next(policy, roomId, s, e).At(c), events, c) {
        AccountsNext(policy, roomId, s, front, e, c);
      }
    }
  }

  lemma NothingHappened(policy: Policy, roomId: string, rooms: Rooms)
    requires NoMatch(roomId, rooms)
    ensures roomId !in Run(policy, roomId, rooms, []).rooms && !Posted([])
    ensures forall c: nat :: Accounts(Run(policy, roomId, rooms, []).At(c), [], c)
  {
  }

  /** A call reaches the final throw exactly when its post failed on the way to the server
      with a message that says the room exists, and it then listed the rooms before any
      call's post had arrived. */
  lemma GivesUpIff(policy: Policy, roomId: string, rooms: Rooms, events: seq<Event>, c: nat)
    requires NoMatch(roomId, rooms) && IsRun(policy, roomId, rooms, events)
    ensures Run(policy, roomId, rooms, events).At(c).GaveUp? <==> exists n :: GivesUpAt(events, c, n)
  {
    hide Run, IsRun, NoMatch, GivesUpAt;
    RunAccounts(policy, roomId, rooms, events);
  }

  /** So no call does when every message that says so comes from the server. */
  lemma NobodyGivesUpUnlessMisled(policy: Policy, roomId: string, rooms: Rooms, events: seq<Event>)
    requires NoMatch(roomId, rooms) && IsRun(policy, roomId, rooms, events)
    requires forall c, message :: Of(c, PostFails(message)) in events ==> !Mentions(message)
    ensures forall c: nat :: !Run(policy, roomId, rooms, events).At(c).GaveUp?
  {
    hide Run, IsRun, NoMatch, SaysExists, Mentions;
    forall c: nat ensures !Run(policy, roomId, rooms, events).At(c).GaveUp? {
      GivesUpIff(policy, roomId, rooms, events, c);
    }
  }

  // ---- the errors a call throws ----

  /** A list of the call failed with this error, or its post or the reply to it did and the
      error contains none of the three texts. */
  ghost predicate FailedWith(events: seq<Event>, call: nat, error: string) {
    || Of(call, ListFails(error)) in events
    || ((Of(call, PostFails(error)) in events || Of(call, ReplyFails(error)) in events) && !Mentions(error))
  }

  ghost predicate ThrowsWhatFailed(p: Phase, events: seq<Event>, call: nat) {
    && (forall error :: p == Threw(error) <==> FailedWith(events, call, error))
    && (p.Awaiting? && p.reply.Refused? ==> Mentions(p.reply.message))
  }

  lemma FailedWithSnoc(events: seq<Event>, e: Event, c: nat, error: string)
    ensures FailedWith(events + [e], c, error) <==>
      FailedWith(events, c, error) || e == Of(c, ListFails(error))
      || ((e == Of(c, PostFails(error)) || e == Of(c, ReplyFails(error))) && !Mentions(error))
  {
    hide Mentions;
    assert forall x :: x in events + [e] <==> x in events || x == e;
  }

  lemma ThrowsNext(policy: Policy, roomId: string, s: State, events: seq<Event>, e: Event, c: nat)
    requires Enabled(roomId, s, e) && ThrowsWhatFailed(s.At(c), events, c)
    ensures ThrowsWhatFailed(Next(policy, roomId, s, e).At(c), events + [e], c)
  {
    hide Pick, Mentions, SaysExists, FailedWith, Lists, IsMatch, AfterError;
    forall error ensures
      FailedWith(events + [e], c, error) <==>
      FailedWith(events, c, error) || e == Of(c, ListFails(error))
      || ((e == Of(c, PostFails(error)) || e == Of(c, ReplyFails(error))) && !Mentions(error))
    {
      FailedWithSnoc(events, e, c, error);
    }
    if policy.Refuses? { RefusalSaysExists(policy.trace); }
    if e.Of? { ErrorsOf(s, e); }
  }

  /** In every interleaving, whatever rooms there are, a call throws an error exactly when one
      of its lists failed with it, or its post or the reply to it did and the error does not
      say that the room exists. */
  lemma {:induction false} ThrowsIff(policy: Policy, roomId: string, rooms: Rooms, events: seq<Event>, c: nat)
    requires IsRun(policy, roomId, rooms, events)
    ensures ThrowsWhatFailed(Run(policy, roomId, rooms, events).At(c), events, c)
  {
    if events != [] {
      var front, e := events[..|events| - 1], events[|events| - 1];
      var s := Run(policy, roomId, rooms, front);
      ThrowsIff(policy, roomId, rooms, front, c);
      assert Enabled(roomId, s, e);
      assert front + [e] == events;
      hide *;
      RunLast(policy, roomId, rooms, events);
      ThrowsNext(policy, roomId, s, front, e, c);
    }
  }

  /** Against a server that refuses a taken id: only the call whose post made the room can
      report `created`; once any call has returned there is such a call; and it does report
      it as soon as its reply arrives, unless the reply is lost. */
  lemma ExactlyOneCreates(policy: Policy, roomId: string, rooms: Rooms, events: seq<Event>)
    requires policy.Refuses? && NoMatch(roomId, rooms) && IsRun(policy, roomId, rooms, events)
    ensures
      var s := Run(policy, roomId, rooms, events);
      && (forall c: nat :: s.At(c).Returned? && s.At(c).created ==> s.creator == Some(c))
      && (forall c: nat :: s.At(c).Returned? ==> s.creator.Some?)
      && (s.creator.Some? ==>
            var p := s.At(s.creator.value);
            p.Returned? && p.created <==> !LostReply(events, s.creator.value) && !p.Awaiting?)
  {
    hide Run, IsRun, NoMatch, LostReply;
    RunKeepsInvariant(policy, roomId, rooms, events);
    var s := Run(policy, roomId, rooms, events);
    forall c: nat | s.At(c).Returned? ensures s.creator.Some? && (s.At(c).created ==> s.creator == Some(c)) {
      assert PhaseFits(policy, roomId, s, events, c);
    }
  }

  /** Against a server that adopts: a call reports `created` exactly when the reply to its
      post arrived, whoever made the room. */
  lemma {:induction false} AdoptingCreatesIffReplied(roomId: string, rooms: Rooms, events: seq<Event>, c: nat)
    requires IsRun(Adopts, roomId, rooms, events)
    ensures
      var p := Run(Adopts, roomId, rooms, events).At(c);
      && (p.Returned? && p.created <==> Of(c, ReplyArrives) in events)
      && (p.Awaiting? ==> p.reply.Success?)
  {
    if events != [] {
      var front, e := events[..|events| - 1], events[|events| - 1];
      AdoptingCreatesIffReplied(roomId, rooms, front, c);
      assert Enabled(roomId, Run(Adopts, roomId, rooms, front), e);
      AdoptingNext(roomId, Run(Adopts, roomId, rooms, front), e, c);
      hide Run, IsRun, Next;
      assert events == front + [e];
    }
  }

  lemma AdoptingNext(roomId: string, s: State, e: Event, c: nat)
    requires Enabled(roomId, s, e) && (s.At(c).Awaiting? ==> s.At(c).reply.Success?)
    ensures
      var p, next := s.At(c), Next(Adopts, roomId, s, e).At(c);
      && (next.Returned? && next.created <==> (p.Returned? && p.created) || e == Of(c, ReplyArrives))
      && (next.Awaiting? ==> next.reply.Success?)
  {
    hide Pick, SaysExists, Mentions, IsMatch, Lists;
  }

  /** So two calls that both find no room can both report `created`. */
  lemma TwoCallsCanBothCreate(roomId: string)
    ensures
      var events := [
        Of(0, ListAnswers([])), Of(1, ListAnswers([])), Of(0, PostArrives), Of(1, PostArrives),
        Of(0, ReplyArrives), Of(1, ReplyArrives)];
      && IsRun(Adopts, roomId, map[], events)
      && forall c :: c == 0 || c == 1 ==>
           Run(Adopts, roomId, map[], events).At(c) == Returned(Room(roomId, DISPLAY_NAME), true)
  {
    hide *;
    var s, events := BothPost(roomId);
    BothReplied(roomId, s, events);
    assert events + [Of(0, ReplyArrives)] + [Of(1, ReplyArrives)] == [
        Of(0, ListAnswers([])), Of(1, ListAnswers([])), Of(0, PostArrives), Of(1, PostArrives),
        Of(0, ReplyArrives), Of(1, ReplyArrives)];
  }

  lemma BothPost(roomId: string) returns (s: State, events: seq<Event>)
    ensures events == [Of(0, ListAnswers([])), Of(1, ListAnswers([])), Of(0, PostArrives), Of(1, PostArrives)]
    ensures IsRun(Adopts, roomId, map[], events) && Run(Adopts, roomId, map[], events) == s
    ensures s.At(0) == s.At(1) == Awaiting(Success(Room(roomId, DISPLAY_NAME)))
  {
    hide Run, IsRun, IsMatch, SaysExists, Mentions;
    var e0, e1, e2, e3 := Of(0, ListAnswers([])), Of(1, ListAnswers([])), Of(0, PostArrives), Of(1, PostArrives);
    s := RunsOn(Adopts, roomId, [], State(map[], map[], None), e0);
    assert [] + [e0] == [e0];
    s := RunsOn(Adopts, roomId, [e0], s, e1);
    assert [e0] + [e1] == [e0, e1];
    s := RunsOn(Adopts, roomId, [e0, e1], s, e2);
    assert [e0, e1] + [e2] == [e0, e1, e2];
    s := RunsOn(Adopts, roomId, [e0, e1, e2], s, e3);
    assert [e0, e1, e2] + [e3] == [e0, e1, e2, e3];
    events := [e0, e1, e2, e3];
  }

  lemma BothReplied(roomId: string, s: State, events: seq<Event>)
    requires events != [] && IsRun(Adopts, roomId, map[], events) && Run(Adopts, roomId, map[], events) == s
    requires s.At(0) == s.At(1) == Awaiting(Success(Room(roomId, DISPLAY_NAME)))
    ensures
      var longer := events + [Of(0, ReplyArrives)] + [Of(1, ReplyArrives)];
      && IsRun(Adopts, roomId, map[], longer)
      && forall c :: c == 0 || c == 1 ==>
           Run(Adopts, roomId, map[], longer).At(c) == Returned(Room(roomId, DISPLAY_NAME), true)
  {
    hide Run, IsRun, IsMatch, SaysExists, Mentions, Lists;
    var next := RunsOn(Adopts, roomId, events, s, Of(0, ReplyArrives));
    next := RunsOn(Adopts, roomId, events + [Of(0, ReplyArrives)], next, Of(1, ReplyArrives));
  }

  /** A run from no rooms taken one step further. */
  lemma RunsOn(policy: Policy, roomId: string, events: seq<Event>, s: State, e: Event) returns (next: State)
    requires events != [] ==> IsRun(policy, roomId, map[], events) && Run(policy, roomId, map[], events) == s
    requires events == [] ==> s == State(map[], map[], None)
    requires Enabled(roomId, s, e)
    ensures next == Next(policy, roomId, s, e)
    ensures IsRun(policy, roomId, map[], events + [e]) && Run(policy, roomId, map[], events + [e]) == next
  {
    hide Next, Enabled;
    next := Next(policy, roomId, s, e);
    assert (events + [e])[..|events|] == events;
  }

  /** A run with one call that reaches it. */
  lemma MisledCallGivesUp(policy: Policy, roomId: string)
    ensures
      var events := [Of(0, ListAnswers([])), Of(0, PostFails("already exists")), Of(0, ListAnswers([]))];
      IsRun(policy, roomId, map[], events) && Run(policy, roomId, map[], events).At(0).GaveUp?
  {
    hide Run, IsRun, SaysExists, Mentions;
    var e0, e1 := Of(0, ListAnswers([])), Of(0, PostFails("already exists"));
    assert Mentions("already exists") by { PlainMessageSaysExists(); }
    AfterErrorMeans("already exists");
    var s1 := RunsOn(policy, roomId, [], State(map[], map[], None), e0);
    assert [] + [e0] == [e0];
    var s2 := RunsOn(policy, roomId, [e0], s1, e1);
    assert [e0] + [e1] == [e0, e1];
    var s3 := RunsOn(policy, roomId, [e0, e1], s2, e0);
    assert [e0, e1] + [e0] == [e0, e1, e0];
  }

  lemma PlainMessageSaysExists()
    ensures Mentions("already exists")
  {
    var message := "already exists";
    assert StandsAt(message, message, 0);
  }

  // ---- a room that is there already ----

  ghost predicate HasMatch(roomId: string, rooms: Rooms) {
    exists id :: id in rooms && IsMatch(roomId, Room(id, rooms[id]))
  }

  /** The matching rooms are those of the start, and no call has gone past its first list. */
  ghost predicate Untouched(roomId: string, start: Rooms, s: State) {
    && (forall id :: id in start ==> id in s.rooms && s.rooms[id] == start[id])
    && (forall id :: id in s.rooms && IsMatch(roomId, Room(id, s.rooms[id])) ==> id in start)
    && (forall c: nat :: FoundOnly(roomId, start, s.At(c)))
  }

  predicate FoundOnly(roomId: string, start: Rooms, p: Phase) {
    || p.Listing? || p.Threw?
    || (p.Returned? && !p.created && p.room.id in start && start[p.room.id] == p.room.name && IsMatch(roomId, p.room))
  }

  /** With a matching room there, a list finds one of the start. */
  lemma ListFindsStart(roomId: string, start: Rooms, s: State, listing: seq<Room>)
    requires HasMatch(roomId, start) && Untouched(roomId, start, s) && Lists(listing, s.rooms)
    ensures Pick(roomId, listing).Some? && FoundOnly(roomId, start, Returned(Pick(roomId, listing).value, false))
  {
    hide Pick, IsMatch, Rank;
    PickIsFirstOfBestRank(roomId, listing);
    var id :| id in start && IsMatch(roomId, Room(id, start[id]));
    assert Room(id, s.rooms[id]) in listing;
    var i :| IsBest(roomId, listing, i) && listing[i] == Pick(roomId, listing).value;
    assert listing[i] in listing && IsMatch(roomId, listing[i]) by { BestMatches(roomId, listing[i]); }
  }

  lemma BestMatches(roomId: string, r: Room)
    ensures Rank(roomId, r) < 4 <==> IsMatch(roomId, r)
  {
  }

  lemma UntouchedNext(policy: Policy, roomId: string, start: Rooms, s: State, e: Event)
    requires HasMatch(roomId, start) && Untouched(roomId, start, s) && Enabled(roomId, s, e)
    ensures Untouched(roomId, start, Next(policy, roomId, s, e))
  {
    hide Pick, SaysExists, Mentions, IsMatch, Lists, HasMatch;
    if e.Of? {
      assert FoundOnly(roomId, start, s.At(e.call));
      var next := Next(policy, roomId, s, e);
      assert next.rooms == s.rooms;
      if e.action.ListAnswers? { ListFindsStart(roomId, start, s, e.action.listing); }
      forall c: nat ensures FoundOnly(roomId, start, next.At(c)) {
        assert FoundOnly(roomId, start, s.At(c));
      }
    } else {
      var next := s.(rooms := s.rooms[e.id := e.name]);
      forall c: nat ensures next.At(c) == s.At(c) {}
      forall id | id in next.rooms && IsMatch(roomId, Room(id, next.rooms[id])) ensures id in start {
        if id != e.id { assert IsMatch(roomId, Room(id, s.rooms[id])); }
      }
    }
  }

  /** When some room matches from the start, no call ever posts: each returns a matching room
      of the start, not created, or fails to list. */
  lemma {:induction false} ExistingRoomIsFound(policy: Policy, roomId: string, rooms: Rooms, events: seq<Event>)
    requires HasMatch(roomId, rooms) && IsRun(policy, roomId, rooms, events)
    ensures Untouched(roomId, rooms, Run(policy, roomId, rooms, events))
  {
    if events != [] {
      var front, e := events[..|events| - 1], events[|events| - 1];
      var s := Run(policy, roomId, rooms, front);
      ExistingRoomIsFound(policy, roomId, rooms, front);
      assert Enabled(roomId, s, e);
      hide *;
      UntouchedNext(policy, roomId, rooms, s, e);
      assert Run(policy, roomId, rooms, events) == Next(policy, roomId, s, e) by { RunLast(policy, roomId, rooms, events); }
    }
  }

  lemma RunLast(policy: Policy, roomId: string, rooms: Rooms, events: seq<Event>)
    requires events != []
    ensures Run(policy, roomId, rooms, events) ==
      Next(policy, roomId, Run(policy, roomId, rooms, events[..|events| - 1]), events[|events| - 1])
  {
  }

  // ---- the single call as a run ----

  function FirstStep(first: Answer<seq<Room>>): (a: Action) {
    if first.Throws? then ListFails(first.error) else ListAnswers(first.value)
  }

  /** Where call 0 gets when it takes all its steps with nobody else about. */
  function Alone(policy: Policy, roomId: string, s: State, first: Answer<seq<Room>>, fate: Fate, second: Answer<seq<Room>>)
    : (r: State)
  {
    var listed := Next(policy, roomId, s, Of(0, FirstStep(first)));
    if !listed.At(0).Posting? then listed
    else
      var posted :=
        match fate
        case NeverArrives(error) => Next(policy, roomId, listed, Of(0, PostFails(error)))
        case ReplyLost(error) =>
          Next(policy, roomId, Next(policy, roomId, listed, Of(0, PostArrives)), Of(0, ReplyFails(error)))
        case Answered => Next(policy, roomId, Next(policy, roomId, listed, Of(0, PostArrives)), Of(0, ReplyArrives));
      if !posted.At(0).Relisting? then posted else Next(policy, roomId, posted, Of(0, FirstStep(second)))
  }

  /** The uninterrupted call is the interleaved machine with one call in it. */
  lemma EnsuredIsAlone(
    policy: Policy, rooms: Rooms, projectId: string, first: Answer<seq<Room>>, fate: Fate, second: Answer<seq<Room>>)
    ensures
      var s := Alone(policy, "assistant-" + projectId, State(rooms, map[], None), first, fate, second);
      Ensured(policy, rooms, projectId, first, fate, second) == (s.rooms, s.At(0))
  {
    hide Pick, SaysExists, Mentions;
  }
}
