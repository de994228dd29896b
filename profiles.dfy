/**
 * Kid records and the family-wide state: the list of kids and the per-kid message
 * threads. Covers creating a kid, the one-time colour rename, the age avatar, and
 * sending a message.
 */
module Profiles {
  import opened Common
  import PersonalCare

  /**
   * The profile fields the core reads. A field that was never filled in is None.
   * The many other form fields are not part of this model.
   */
  datatype Profile = Profile(shirtSize: Option<string>, pantsPreference: Option<string>,
                             toyPreference: Option<string>, favoriteColors: Option<seq<string>>,
                             personalCare: Option<PersonalCare.Care>)

  /** The `{}` profile a new kid starts with. */
  const EmptyProfile := Profile(None, None, None, None, None)

  /** A kid record. `age` is the text of the age field, as stored. */
  datatype Kid = Kid(id: string, name: string, age: string, color: string, profile: Profile, lastUpdated: int)

  /** One message in a kid's thread. */
  datatype Message = Message(from: string, text: string, timestamp: int)

  const DefaultColor := "bright-blue"
  const FamilySender := "Family Member"

  // ---------------------------------------------------------------------------
  // Colours

  /** The legacy colour names and the theme colours that replace them. */
  const ColorMapping: map<string, string> := map[
    "blue" := "bright-blue",
    "pink" := "hot-pink",
    "green" := "emerald-green",
    "purple" := "royal-purple",
    "orange" := "sunset-orange"]

  /** The colour a kid has after `migrateColors`. */
  function MigrateColor(color: string): string
  {
    if color in ColorMapping then ColorMapping[color] else color
  }

  /** No replacement colour is itself a legacy name, so a migrated colour is never legacy. */
  lemma MigratedColorIsCurrent(color: string)
    ensures MigrateColor(color) !in ColorMapping
  {
  }

  /** Hence migrating twice is the same as migrating once. */
  lemma MigrateColorIdempotent(color: string)
    ensures MigrateColor(MigrateColor(color)) == MigrateColor(color)
  {
    MigratedColorIsCurrent(color);
  }

  // ---------------------------------------------------------------------------
  // Age avatar

  /** The avatars `getKidEmoji` picks from: 👶, 🧒, 👦, 👨. */
  datatype Avatar = Baby | Child | Teen | Grown

  function AvatarRank(a: Avatar): nat
  {
    match a
    case Baby => 0
    case Child => 1
    case Teen => 2
    case Grown => 3
  }

  /** `getKidEmoji`: the avatar for an age, by the bands up to 5, up to 10, up to 15, and above. */
  function KidAvatar(age: int): Avatar
  {
    if age <= 5 then Baby
    else if age <= 10 then Child
    else if age <= 15 then Teen
    else Grown
  }

  /** An older kid never gets a younger-looking avatar. */
  lemma KidAvatarMonotone(a: int, b: int)
    requires a <= b
    ensures AvatarRank(KidAvatar(a)) <= AvatarRank(KidAvatar(b))
  {
  }

  // ---------------------------------------------------------------------------
  // Trimming message text

  /** The characters JavaScript's `String.prototype.trim` removes: white space and line terminators. */
  predicate IsJsWhitespace(c: char)
  {
    || c == '\t' || c == '\n' || c == '\U{000B}' || c == '\U{000C}' || c == '\r' || c == ' '
    || c == '\U{00A0}' || c == '\U{1680}' || ('\U{2000}' <= c <= '\U{200A}')
    || c == '\U{2028}' || c == '\U{2029}' || c == '\U{202F}' || c == '\U{205F}' || c == '\U{3000}'
    || c == '\U{FEFF}'
  }

  /** Number of white-space characters at the start. */
  function LeadingSpace(s: string): (n: nat)
    ensures n <= |s|
    ensures forall i :: 0 <= i < n ==> IsJsWhitespace(s[i])
    ensures n < |s| ==> !IsJsWhitespace(s[n])
  {
    if |s| > 0 && IsJsWhitespace(s[0]) then 1 + LeadingSpace(s[1..]) else 0
  }

  /** Number of white-space characters at the end. */
  function TrailingSpace(s: string): (n: nat)
    ensures n <= |s|
    ensures forall i :: |s| - n <= i < |s| ==> IsJsWhitespace(s[i])
    ensures n < |s| ==> !IsJsWhitespace(s[|s| - n - 1])
  {
    if |s| > 0 && IsJsWhitespace(s[|s| - 1]) then 1 + TrailingSpace(s[..|s| - 1]) else 0
  }

  /** `s.trim()`. */
  function Trim(s: string): string
  {
    var t := s[LeadingSpace(s)..];
    t[..|t| - TrailingSpace(t)]
  }

  /**
   * Trimming cuts only white space from the two ends and leaves a piece of the text that
   * neither starts nor ends with white space; it leaves nothing exactly when the text is
   * all white space.
   */
  lemma TrimProperties(s: string)
    ensures var r := Trim(s);
      && (r == [] <==> forall i :: 0 <= i < |s| ==> IsJsWhitespace(s[i]))
      && (r != [] ==> !IsJsWhitespace(r[0]) && !IsJsWhitespace(r[|r| - 1]))
      && exists a, b :: && 0 <= a <= b <= |s| && r == s[a..b]
                        && (forall i :: 0 <= i < a ==> IsJsWhitespace(s[i]))
                        && (forall i :: b <= i < |s| ==> IsJsWhitespace(s[i]))
  {
    var a := LeadingSpace(s);
    var t := s[a..];
    var n := TrailingSpace(t);
    var r := Trim(s);
    assert r == s[a..a + |t| - n];
    forall i | a + |t| - n <= i < |s|
      ensures IsJsWhitespace(s[i])
    {
      assert s[i] == t[i - a];
    }
    if r == [] {
      // the first character after the leading white space would have to be white space too
      assert a == |s|;
    } else {
      assert r[0] == t[0];
      assert r[|r| - 1] == t[|t| - n - 1];
    }
  }

  /** Trimming twice is the same as trimming once. */
  lemma TrimIdempotent(s: string)
    ensures Trim(Trim(s)) == Trim(s)
  {
    var r := Trim(s);
    TrimProperties(s);
    if r != [] {
      assert LeadingSpace(r) == 0;
      assert TrailingSpace(r) == 0;
      assert r[0..] == r;
    }
  }

  // ---------------------------------------------------------------------------
  // The family state

  /** The record `createKid` builds; a colour left unchosen defaults to bright blue. */
  function NewKid(id: string, name: string, age: string, color: string, now: int): Kid
  {
    Kid(id, name, age, if color == "" then DefaultColor else color, EmptyProfile, now)
  }

  /** A kid's message thread; a kid with no thread yet has an empty one. */
  function Thread(messages: map<string, seq<Message>>, kidId: string): seq<Message>
  {
    if kidId in messages then messages[kidId] else []
  }

  /** The global `kids` list and `messages` map, as loaded from storage. */
  class Family {
    var kids: seq<Kid>
    var messages: map<string, seq<Message>>

    constructor (kids: seq<Kid>, messages: map<string, seq<Message>>)
      ensures this.kids == kids && this.messages == messages
    {
      this.kids := kids;
      this.messages := messages;
    }

    /**
     * `createKid`: a kid is added at the end only when both the name and the age field
     * are filled in. The id and the timestamp are passed in, and an empty `color` means
     * no colour was chosen.
     */
    method CreateKid(id: string, name: string, age: string, color: string, now: int) returns (created: bool)
      modifies this`kids
      ensures created <==> name != "" && age != ""
      ensures kids == if created then old(kids) + [NewKid(id, name, age, color, now)] else old(kids)
    {
      if name == "" || age == "" {
        return false;
      }
      kids := kids + [NewKid(id, name, age, color, now)];
      created := true;
    }

    /** `migrateColors`: every legacy colour is renamed; nothing else about any kid changes. */
    method MigrateColors()
      modifies this`kids
      ensures |kids| == |old(kids)|
      ensures forall i :: 0 <= i < |kids| ==> kids[i] == old(kids)[i].(color := MigrateColor(old(kids)[i].color))
      ensures forall i :: 0 <= i < |kids| ==> kids[i].color !in ColorMapping
    {
      var i := 0;
      while i < |kids|
        invariant 0 <= i <= |kids| == |old(kids)|
        invariant forall j :: 0 <= j < i ==> kids[j] == old(kids)[j].(color := MigrateColor(old(kids)[j].color))
        invariant forall j :: i <= j < |kids| ==> kids[j] == old(kids)[j]
      {
        if kids[i].color in ColorMapping {
          kids := kids[i := kids[i].(color := ColorMapping[kids[i].color])];
        }
        i := i + 1;
      }
      forall i | 0 <= i < |kids| ensures kids[i].color !in ColorMapping {
        MigratedColorIsCurrent(old(kids)[i].color);
      }
    }

    /**
     * `sendMessage`: with a current kid and a draft that is not all white space, the
     * trimmed text is appended to that kid's thread, which is created if missing;
     * otherwise nothing changes.
     */
    method SendMessage(current: Option<Kid>, draft: string, now: int) returns (sent: bool)
      modifies this`messages
      ensures sent <==> current.Some? && Trim(draft) != []
      ensures sent ==> messages == old(messages)[current.value.id :=
                                      Thread(old(messages), current.value.id) + [Message(FamilySender, Trim(draft), now)]]
      ensures !sent ==> messages == old(messages)
    {
      if current.None? {
        return false;
      }
      var text := Trim(draft);
      if text == [] {
        return false;
      }
      var id := current.value.id;
      if id !in messages {
        messages := messages[id := []];
      }
      messages := messages[id := messages[id] + [Message(FamilySender, text, now)]];
      sent := true;
    }
  }
}
