/** The identity-provider webhooks (`Backend/inngest/index.js`): four handlers that keep the
    user collection in step with the provider's user and session events. Each handler catches
    and logs every failure, so a failed step leaves the collection as it was. */
module UserSync {
  import opened Common
  import opened Domain
  import opened JsText

  /** A name field of an event: a string, `null`, or absent. */
  type NameField = v: JsValue | !v.Other? witness Undefined

  datatype EmailAddress = EmailAddress(emailAddress: Option<string>)

  /** The `data` of a `clerk/user.created` or `clerk/user.updated` event. */
  datatype UserEvent = UserEvent(
    id: UserId,
    firstName: NameField,
    lastName: NameField,
    emailAddresses: Option<seq<EmailAddress>>,
    imageUrl: Option<string>)

  datatype PublicMetadata = PublicMetadata(email: Option<string>, username: Option<string>, fullName: Option<string>)

  /** The `data` of a `clerk/session.created` event. */
  datatype SessionEvent = SessionEvent(userId: UserId, publicMetadata: Option<PublicMetadata>)

  /** A destructuring default: it replaces an absent value only, never `null`. */
  function WithDefault(v: NameField, default: string): (r: NameField)
    ensures v.Undefined? ==> r == Str(default)
    ensures !v.Undefined? ==> r == v
  {
    if v.Undefined? then Str(default) else v
  }

  /** A value as a template literal shows it. */
  function Rendered(v: NameField): string {
    match v
    case Undefined => "undefined"
    case Null => "null"
    case Str(s) => s
  }

  /** `email_addresses[0]?.email_address`, with `email_addresses` defaulting to `[]`. */
  function FirstEmail(addresses: Option<seq<EmailAddress>>): (r: Option<string>)
    ensures (addresses.None? || addresses.value == []) ==> r.None?
    ensures addresses.Some? && addresses.value != [] ==> r == addresses.value[0].emailAddress
  {
    if addresses.Some? && addresses.value != [] then addresses.value[0].emailAddress else None
  }

  /** The address used when a new user has none: `user<now>@example.com`. */
  function PlaceholderEmail(now: nat): string {
    "user" + NatToDecimal(now) + "@example.com"
  }

  /** The email of a created user: the first address when it is a non-empty string,
      otherwise the placeholder. */
  function CreationEmail(addresses: Option<seq<EmailAddress>>, now: nat): (r: string)
    ensures FirstEmail(addresses).Some? && FirstEmail(addresses).value != [] ==> r == FirstEmail(addresses).value
    ensures (FirstEmail(addresses).None? || FirstEmail(addresses).value == []) ==> r == PlaceholderEmail(now)
    ensures r != []
  {
    OrElse(FirstEmail(addresses), PlaceholderEmail(now))
  }

  /** The username a creation starts from: the part of the email before its first `@`. */
  function BaseUsername(email: string): (r: string)
    ensures '@' !in r && |r| <= |email| && r == email[..|r|]
    ensures |r| < |email| ==> email[|r|] == '@'
  {
    BeforeFirst(email, '@')
  }

  /** A user who signs up without an address gets `user<now>` as base username. */
  lemma PlaceholderUsername(now: nat)
    ensures BaseUsername(PlaceholderEmail(now)) == "user" + NatToDecimal(now)
  {
    var name := "user" + NatToDecimal(now);
    var email := PlaceholderEmail(now);
    assert email == name + "@example.com";
    assert '@' !in name by {
      var d := NatToDecimal(now);
      forall k | 0 <= k < |name| ensures name[k] != '@' {
        if k >= 4 {
          assert name[k] == d[k - 4];
        }
      }
    }
    assert email == name + "@" + "example.com";
    BeforeFirstUpTo(name, '@', "example.com");
  }

  /** `Math.floor(random * 10000)` for `0 <= random < 1`, the suffix of a taken username. */
  function Suffix(random: real): (r: nat)
    requires 0.0 <= random < 1.0
    ensures r <= 9999
    ensures r as real <= random * 10000.0 < r as real + 1.0
  {
    (random * 10000.0).Floor
  }

  /** Some stored user already has the username `name` (`User.findOne({username})`). */
  predicate UsernameTaken(users: map<UserId, User>, name: string) {
    exists id :: id in users && users[id].username == name
  }

  /** The store accepts a new document: its `_id` and (unique) `username` are not in use and
      the required `_id`, `email` and `username` are not empty. */
  predicate CanInsert(users: map<UserId, User>, u: User)
    ensures CanInsert(users, u) ==> u.id != [] && u.id !in users
    ensures CanInsert(users, u) ==> forall id :: id in users ==> users[id].username != u.username
  {
    u.id != "" && u.id !in users && !UsernameTaken(users, u.username) && u.email != "" && u.username != ""
  }

  /** The username a creation stores: the base when it is free, otherwise the base followed by
      exactly one decimal suffix of at most 9999. */
  function ChosenUsername(users: map<UserId, User>, base: string, random: real): (r: string)
    requires 0.0 <= random < 1.0
    ensures !UsernameTaken(users, base) ==> r == base
    ensures UsernameTaken(users, base) ==>
      && |r| > |base| && r[..|base|] == base
      && IsDecimal(r[|base|..]) && DecimalValue(r[|base|..]) <= 9999
  {
    if UsernameTaken(users, base) then
      var k := Suffix(random);
      var r := base + NatToDecimal(k);
      assert r[|base|..] == NatToDecimal(k);
      NatToDecimalRoundTrip(k);
      r
    else base
  }

  /** The suffixed name is not checked again: when it is taken as well, the insert is refused. */
  lemma SuffixNotRechecked()
    ensures var taken := NewUser("u1", "bob@example.com", "bob", "", "", None);
            var also := NewUser("u2", "bob0@example.com", "bob0", "", "", None);
            var users := map["u1" := taken, "u2" := also];
            var name := ChosenUsername(users, "bob", 0.0);
            UsernameTaken(users, "bob") && !CanInsert(users, NewUser("u3", "bob@x.org", name, "", "", None))
  {
    var taken := NewUser("u1", "bob@example.com", "bob", "", "", None);
    var also := NewUser("u2", "bob0@example.com", "bob0", "", "", None);
    var users := map["u1" := taken, "u2" := also];
    assert users["u1"].username == "bob";
    assert Suffix(0.0) == 0;
    assert ChosenUsername(users, "bob", 0.0) == "bob0";
    assert users["u2"].username == "bob0";
  }

  /** `${first_name} ${last_name}` with the creation defaults `New` and `User`. */
  function CreationFullName(first: NameField, last: NameField): (r: string)
    ensures var f := Rendered(WithDefault(first, "New"));
            |r| > |f| && r[..|f|] == f && r[|f|] == ' ' && r[|f| + 1..] == Rendered(WithDefault(last, "User"))
  {
    Rendered(WithDefault(first, "New")) + " " + Rendered(WithDefault(last, "User"))
  }

  lemma CreationFullNameDefaults(first: NameField, last: NameField)
    ensures first.Undefined? && last.Undefined? ==> CreationFullName(first, last) == "New User"
    ensures first.Str? && last.Undefined? ==> CreationFullName(first, last) == first.s + " User"
    ensures first.Undefined? && last.Str? ==> CreationFullName(first, last) == "New " + last.s
    ensures first.Null? ==> CreationFullName(first, last)[..5] == "null "
  {
    var l := Rendered(WithDefault(last, "User"));
    if first.Null? {
      assert CreationFullName(first, last) == "null " + l;
    }
  }

  /** `${first_name} ${last_name}`.trim() with both names defaulting to the empty string. */
  function UpdateFullName(first: NameField, last: NameField): (r: string)
    ensures StripsOuterWhitespace(Rendered(WithDefault(first, "")) + " " + Rendered(WithDefault(last, "")), r)
    ensures r == [] || (!IsJsWhitespace(r[0]) && !IsJsWhitespace(r[|r| - 1]))
    ensures |r| <= |Rendered(WithDefault(first, ""))| + 1 + |Rendered(WithDefault(last, ""))|
  {
    Trim(Rendered(WithDefault(first, "")) + " " + Rendered(WithDefault(last, "")))
  }

  /** Updating with neither name gives the empty full name (the lone separator is trimmed). */
  lemma UpdateFullNameBothMissing(first: NameField, last: NameField)
    requires first.Undefined? && last.Undefined?
    ensures UpdateFullName(first, last) == ""
  {
    assert Rendered(WithDefault(first, "")) == "" && Rendered(WithDefault(last, "")) == "";
    assert "" + " " + "" == " ";
    assert IsJsWhitespace(" "[0]);
    assert AllWhitespace(" ");
    TrimEmptyIff(" ");
  }

  /** Updating with two names that carry no outer whitespace joins them with one space. */
  lemma UpdateFullNameBothGiven(first: NameField, last: NameField)
    requires first.Str? && last.Str? && first.s != [] && last.s != []
    requires !IsJsWhitespace(first.s[0]) && !IsJsWhitespace(last.s[|last.s| - 1])
    ensures UpdateFullName(first, last) == first.s + " " + last.s
  {
    assert Rendered(WithDefault(first, "")) == first.s;
    assert Rendered(WithDefault(last, "")) == last.s;
    var joined := first.s + " " + last.s;
    assert joined[0] == first.s[0];
    assert joined[|joined| - 1] == last.s[|last.s| - 1];
    TrimUnpadded(joined);
  }

  /** Updating with only a first name that has no outer whitespace stores that name alone:
      the separator left before the missing last name is trimmed. */
  lemma UpdateFullNameOnlyFirst(first: NameField, last: NameField)
    requires first.Str? && first.s != [] && last.Undefined?
    requires !IsJsWhitespace(first.s[0]) && !IsJsWhitespace(first.s[|first.s| - 1])
    ensures UpdateFullName(first, last) == first.s
  {
    var joined := first.s + " " + "";
    assert Rendered(WithDefault(first, "")) + " " + Rendered(WithDefault(last, "")) == joined;
    assert joined[0] == first.s[0] && IsJsWhitespace(joined[|joined| - 1]);
    assert TrimStart(joined) == joined;
    assert joined[..|joined| - 1] == first.s;
    assert TrimEnd(joined) == TrimEnd(first.s) == first.s;
  }

  /** Updating with only a last name that has no outer whitespace stores that name alone:
      the separator left after the missing first name is trimmed. */
  lemma UpdateFullNameOnlyLast(first: NameField, last: NameField)
    requires first.Undefined? && last.Str? && last.s != []
    requires !IsJsWhitespace(last.s[0]) && !IsJsWhitespace(last.s[|last.s| - 1])
    ensures UpdateFullName(first, last) == last.s
  {
    var joined := "" + " " + last.s;
    assert Rendered(WithDefault(first, "")) + " " + Rendered(WithDefault(last, "")) == joined;
    assert IsJsWhitespace(joined[0]) && joined[1..] == last.s;
    assert TrimStart(joined) == TrimStart(last.s) == last.s;
    assert TrimEnd(last.s) == last.s;
  }

  /** The user a creation event describes, given the username chosen for it. */
  function CreatedUser(ev: UserEvent, email: string, username: string): (u: User)
    ensures u.id == ev.id && u.email == email && u.username == username
    ensures u.fullName == CreationFullName(ev.firstName, ev.lastName)
    ensures u.profilePicture == (if ev.imageUrl.Some? then ev.imageUrl.value else "")
    ensures u.lastLogin.None? && u.bio == DefaultBio
    ensures u.followers == [] && u.following == [] && u.connections == []
  {
    NewUser(ev.id, email, username, CreationFullName(ev.firstName, ev.lastName),
            if ev.imageUrl.Some? then ev.imageUrl.value else "", None)
  }

  /** The user a first login creates: metadata values when truthy, else the defaults. */
  function LoginUser(ev: SessionEvent, now: nat): (u: User)
    ensures u.id == ev.userId && u.lastLogin == Some(now)
    ensures u.email != [] && u.username != []
    ensures ev.publicMetadata.None? ==>
      u.email == PlaceholderEmail(now) && u.username == "user" + NatToDecimal(now) && u.fullName == "New User"
    ensures var md := ev.publicMetadata;
            md.Some? && md.value.email.Some? && md.value.email.value != [] ==> u.email == md.value.email.value
    ensures var md := ev.publicMetadata;
            !(md.Some? && md.value.email.Some? && md.value.email.value != []) ==> u.email == PlaceholderEmail(now)
    ensures var md := ev.publicMetadata;
            md.Some? && md.value.username.Some? && md.value.username.value != [] ==> u.username == md.value.username.value
    ensures var md := ev.publicMetadata;
            !(md.Some? && md.value.username.Some? && md.value.username.value != []) ==> u.username == "user" + NatToDecimal(now)
    ensures var md := ev.publicMetadata;
            md.Some? && md.value.fullName.Some? && md.value.fullName.value != [] ==> u.fullName == md.value.fullName.value
    ensures var md := ev.publicMetadata;
            !(md.Some? && md.value.fullName.Some? && md.value.fullName.value != []) ==> u.fullName == "New User"
    ensures u.profilePicture == "" && u.bio == DefaultBio
    ensures u.followers == [] && u.following == [] && u.connections == []
  {
    var md := ev.publicMetadata;
    var email := OrElse(if md.Some? then md.value.email else None, PlaceholderEmail(now));
    var username := OrElse(if md.Some? then md.value.username else None, "user" + NatToDecimal(now));
    var fullName := OrElse(if md.Some? then md.value.fullName else None, "New User");
    NewUser(ev.userId, email, username, fullName, "", Some(now))
  }

  /** The user collection, keyed by `_id`. */
  class UserStore {
    var users: map<UserId, User>

    constructor (users: map<UserId, User>)
      ensures this.users == users
    {
      this.users := users;
    }

    /** `User.create`: inserts `u` when the store accepts it; a rejected insert throws,
        which the calling handler catches, leaving the collection unchanged. */
    method Create(u: User) returns (ok: bool)
      modifies this
      ensures ok == CanInsert(old(users), u)
      ensures users == if ok then old(users)[u.id := u] else old(users)
    {
      ok := CanInsert(users, u);
      if ok {
        users := users[u.id := u];
      }
    }

    /** `syncUserCreation`. The username is the email's part before `@`; when that is taken,
        one random suffix in 0..9999 is appended and the result is not checked again, so a
        second collision makes the insert fail. */
    method SyncUserCreation(ev: UserEvent, now: nat, random: real)
      requires 0.0 <= random < 1.0
      modifies this
      ensures var email := CreationEmail(ev.emailAddresses, now);
              var base := BaseUsername(email);
              var name := ChosenUsername(old(users), base, random);
              var u := CreatedUser(ev, email, name);
              users == if CanInsert(old(users), u) then old(users)[ev.id := u] else old(users)
    {
      var email := OrElse(FirstEmail(ev.emailAddresses), PlaceholderEmail(now));
      var username := BeforeFirst(email, '@');
      if UsernameTaken(users, username) {
        username := username + NatToDecimal((random * 10000.0).Floor);
      }
      var _ := Create(CreatedUser(ev, email, username));
    }

    /** `syncUserUpdation`: overwrites email, full name and picture of an existing user;
        an unknown id changes nothing (`findByIdAndUpdate` finds no document). */
    method SyncUserUpdation(ev: UserEvent)
      modifies this
      ensures ev.id !in old(users) ==> users == old(users)
      ensures ev.id in old(users) ==>
        users == old(users)[ev.id := old(users)[ev.id].(
          email := OrElse(FirstEmail(ev.emailAddresses), ""),
          fullName := UpdateFullName(ev.firstName, ev.lastName),
          profilePicture := if ev.imageUrl.Some? then ev.imageUrl.value else "")]
    {
      var email := OrElse(FirstEmail(ev.emailAddresses), "");
      var fullName := UpdateFullName(ev.firstName, ev.lastName);
      var picture := if ev.imageUrl.Some? then ev.imageUrl.value else "";
      if ev.id in users {
        var u := users[ev.id];
        users := users[ev.id := u.(email := email, fullName := fullName, profilePicture := picture)];
      }
    }

    /** `syncUserDeletion`: removes the user with the event's id and no other. */
    method SyncUserDeletion(id: UserId)
      modifies this
      ensures users == old(users) - {id}
    {
      users := users - {id};
    }

    /** `syncUserLogin`: an existing user only gets a new `lastLogin`; an unknown one is
        created from the session's public metadata or the defaults. */
    method SyncUserLogin(ev: SessionEvent, now: nat)
      modifies this
      ensures ev.userId in old(users) ==>
        users == old(users)[ev.userId := old(users)[ev.userId].(lastLogin := Some(now))]
      ensures ev.userId !in old(users) ==>
        users == if CanInsert(old(users), LoginUser(ev, now))
                 then old(users)[ev.userId := LoginUser(ev, now)] else old(users)
    {
      if ev.userId !in users {
        var _ := Create(LoginUser(ev, now));
      } else {
        var u := users[ev.userId];
        users := users[ev.userId := u.(lastLogin := Some(now))];
      }
    }
  }
}
