/** Making sure an authenticated user has a profile row
    (backend/utils/user.py): the username derived from the identity
    provider's record, and the profile lookup-or-insert. */
module UserProfile {
  import opened Common
  import Database
  import UserMenu

  /** The `email` entry of the user record: absent, present but None (the
      identity provider has no address for the user), or an address. */
  datatype EmailEntry = NoEntry | NullEmail | Address(text: string)

  /** The authenticated user as the auth middleware hands it over; None
      stands for an absent key. Metadata values are strings. */
  datatype UserData = UserData(userId: string, metadata: Option<map<string, string>>, email: EmailEntry)

  /** `d.get(key)`, None when absent. */
  function Get(d: map<string, string>, key: string): Option<string> {
    if key in d then Some(d[key]) else None
  }

  /** Python truthiness of `d.get(key)`. */
  predicate Truthy(o: Option<string>) {
    o.Some? && o.value != ""
  }

  /** `user_data.get('user_metadata', {})`. */
  function Metadata(data: UserData): map<string, string> {
    match data.metadata
    case None => map[]
    case Some(m) => m
  }

  /** `user_data.get('email', '')`: the empty string for an absent entry,
      None for an entry holding None. */
  function Email(data: UserData): Option<string> {
    match data.email
    case NoEntry => Some("")
    case NullEmail => None
    case Address(e) => Some(e)
  }

  /** The e-mail as the username expression sees it: None is falsy, like
      the empty string. */
  function EmailText(email: Option<string>): string {
    match email
    case None => ""
    case Some(e) => e
  }

  /** The username expression. The conditional binds loosest, so it reads
      `(full_name or name or email.split('@')[0]) if email else 'user'`. */
  function Username(metadata: map<string, string>, email: string): string {
    if email == "" then "user"
    else if Truthy(Get(metadata, "full_name")) then metadata["full_name"]
    else if Truthy(Get(metadata, "name")) then metadata["name"]
    else Split(email, "@")[0]
  }

  /** Without an e-mail address the username is 'user', even when the
      metadata carries a full name or a name. */
  lemma EmptyEmailIgnoresNames(metadata: map<string, string>)
    ensures Username(metadata, "") == "user"
    ensures Username(map["full_name" := "Ada Lovelace"], "") != "Ada Lovelace"
  {
  }

  /** With an e-mail address the username is full_name, else name, else
      the text before the address's first '@' (all of it when it has none). */
  lemma UsernameWithEmail(metadata: map<string, string>, email: string)
    requires email != ""
    ensures Truthy(Get(metadata, "full_name")) ==> Username(metadata, email) == metadata["full_name"]
    ensures !Truthy(Get(metadata, "full_name")) && Truthy(Get(metadata, "name")) ==>
              Username(metadata, email) == metadata["name"]
    ensures !Truthy(Get(metadata, "full_name")) && !Truthy(Get(metadata, "name")) ==>
              Username(metadata, email) == (match IndexOf(email, "@") case None => email case Some(i) => email[..i])
  {
    if !Truthy(Get(metadata, "full_name")) && !Truthy(Get(metadata, "name")) {
      match IndexOf(email, "@")
      case None =>
      case Some(i) => SplitAt(email, "@", i);
    }
  }

  /** The username is empty exactly when the fallback is used and the
      address starts with '@'. */
  lemma EmptyUsername(metadata: map<string, string>, email: string)
    ensures Username(metadata, email) == "" <==>
              email != "" && !Truthy(Get(metadata, "full_name")) && !Truthy(Get(metadata, "name")) &&
              email[0] == '@'
  {
    if email != "" && !Truthy(Get(metadata, "full_name")) && !Truthy(Get(metadata, "name")) {
      UsernameWithEmail(metadata, email);
      if email[0] == '@' {
        assert MatchAt(email, "@", 0) by {
          assert email[0..1] == "@";
        }
      } else {
        assert !MatchAt(email, "@", 0) by {
          assert email[0..1] == [email[0]];
        }
      }
    }
  }

  /** The name the backend stores agrees with the name the user menu shows
      whenever there is an e-mail address whose local part is not empty;
      without an address they differ for a user with a full name. */
  lemma AgreesWithMenu(metadata: map<string, string>, email: string)
    requires email != "" && email[0] != '@'
    ensures Username(metadata, email) ==
            UserMenu.DisplayName(UserMenu.User(Some(email), Get(metadata, "full_name"), Get(metadata, "name")))
    ensures Username(map["full_name" := "Ada"], "") == "user" &&
            UserMenu.DisplayName(UserMenu.User(None, Some("Ada"), None)) == "Ada"
  {
    EmptyUsername(metadata, email);
  }

  /** The username `ensure_user_profile` derives for a user record. */
  function UsernameOf(data: UserData): string {
    Username(Metadata(data), EmailText(Email(data)))
  }

  /** The profile row inserted for a user without one. */
  function NewProfile(id: string, data: UserData): Database.Profile {
    Database.Profile(id, UsernameOf(data), EmailText(Email(data)), Get(Metadata(data), "avatar_url"))
  }

  /** The insert of a new profile succeeds: the e-mail is not NULL and no
      other profile holds the username. */
  predicate Insertable(profiles: map<string, Database.Profile>, id: string, data: UserData) {
    Email(data).Some? && !Database.UsernameTaken(profiles, id, UsernameOf(data))
  }

  /** `ensure_user_profile` returns (rather than raising): the user id is
      a UUID, and the user has a profile or one can be inserted. */
  predicate Ensurable(profiles: map<string, Database.Profile>, data: UserData, parsedId: Option<string>) {
    parsedId.Some? && (parsedId.value in profiles || Insertable(profiles, parsedId.value, data))
  }

  /** The profiles after `ensure_user_profile`: a new profile is added
      exactly when the user had none and the insert succeeds. */
  function AfterEnsure(profiles: map<string, Database.Profile>, data: UserData, parsedId: Option<string>)
    : map<string, Database.Profile>
  {
    if parsedId.Some? && parsedId.value !in profiles && Insertable(profiles, parsedId.value, data)
    then profiles[parsedId.value := NewProfile(parsedId.value, data)]
    else profiles
  }

  /** No two profiles share a username (the UNIQUE constraint). */
  predicate UniqueUsernames(profiles: map<string, Database.Profile>) {
    forall a, b :: a in profiles && b in profiles && a != b ==> profiles[a].username != profiles[b].username
  }

  /** Ensuring a profile keeps usernames unique, leaves every other
      profile as it was, and leaves the user with a profile exactly when
      it returns. */
  lemma EnsureKeepsProfiles(profiles: map<string, Database.Profile>, data: UserData, parsedId: Option<string>)
    requires UniqueUsernames(profiles)
    ensures UniqueUsernames(AfterEnsure(profiles, data, parsedId))
    ensures forall other :: other in profiles ==>
              other in AfterEnsure(profiles, data, parsedId) && AfterEnsure(profiles, data, parsedId)[other] == profiles[other]
    ensures parsedId.Some? ==> (parsedId.value in AfterEnsure(profiles, data, parsedId) <==> Ensurable(profiles, data, parsedId))
  {
  }

  /** A user record whose e-mail is None can never get a first profile:
      its username is 'user' and the NOT NULL column refuses the row. */
  lemma NullEmailFails(profiles: map<string, Database.Profile>, data: UserData, id: string)
    requires data.email == NullEmail && id !in profiles
    ensures UsernameOf(data) == "user"
    ensures !Ensurable(profiles, data, Some(id))
  {
  }

  /** How `ensure_user_profile` ends. */
  datatype Ensured =
    | Ensured(userId: string, username: string)
      // `UUID(user_data['user_id'])` raised ValueError
    | InvalidUserId
      // the profile insert raised (the username is held by another profile)
    | ProfileFailed

  /** `ensure_user_profile`, given the result of parsing the user id as a
      UUID (None when it is not one). The username returned is the stored
      profile's, so an existing profile keeps its name. */
  method EnsureUserProfile(store: Database.Store, data: UserData, parsedId: Option<string>) returns (r: Ensured)
    modifies store
    ensures parsedId.None? ==> r == InvalidUserId
    ensures r.Ensured? <==> Ensurable(old(store.profiles), data, parsedId)
    ensures store.profiles == AfterEnsure(old(store.profiles), data, parsedId)
    ensures r.Ensured? ==> parsedId.Some? && r.userId == parsedId.value
    ensures r.Ensured? ==> r.userId in store.profiles && r.username == store.profiles[r.userId].username
    ensures parsedId.Some? && parsedId.value in old(store.profiles) ==>
              r == Ensured(parsedId.value, old(store.profiles)[parsedId.value].username)
    ensures parsedId.Some? && parsedId.value !in old(store.profiles) && r.Ensured? ==> r.username == UsernameOf(data)
    ensures store.topics == old(store.topics) && store.arguments == old(store.arguments)
    ensures store.nextArgumentId == old(store.nextArgumentId) && store.matches == old(store.matches)
    ensures store.apiUsage == old(store.apiUsage)
  {
    if parsedId.None? {
      return InvalidUserId;
    }
    var userId := parsedId.value;
    var metadata := Metadata(data);
    var email := Email(data);
    var username := Username(metadata, EmailText(email));
    var profile := store.GetOrCreateUserProfile(userId, email, username, Get(metadata, "avatar_url"));
    match profile
    case None => r := ProfileFailed;
    case Some(p) => r := Ensured(userId, p.username);
  }
}
