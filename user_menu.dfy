/** The signed-in user's menu (frontend/components/auth/UserMenu.tsx): the
    name and initials it shows, and the two-click account deletion. */
module UserMenu {
  import opened Common

  /** The parts of the identity provider's user record the menu reads;
      None stands for an absent field. */
  datatype User = User(email: Option<string>, fullName: Option<string>, name: Option<string>)

  /** What the menu renders for a signed-in user. */
  datatype MenuView = MenuView(displayName: string, initials: string)

  /** JavaScript truthiness of an optional string. */
  predicate Present(s: Option<string>) {
    s.Some? && s.value != ""
  }

  /** `email?.split('@')[0]`: the part of the address before its first '@'. */
  function EmailName(email: Option<string>): Option<string> {
    match email
    case None => None
    case Some(e) => Some(Split(e, "@")[0])
  }

  /** `displayName`: full_name, else name, else the e-mail's local part,
      else 'User', each taken only when it is a non-empty string. */
  function DisplayName(u: User): (r: string)
    ensures r != ""
    ensures Present(u.fullName) ==> r == u.fullName.value
    ensures !Present(u.fullName) && Present(u.name) ==> r == u.name.value
    ensures !Present(u.fullName) && !Present(u.name) && Present(EmailName(u.email)) ==> r == EmailName(u.email).value
    ensures !Present(u.fullName) && !Present(u.name) && !Present(EmailName(u.email)) ==> r == "User"
  {
    if Present(u.fullName) then u.fullName.value
    else if Present(u.name) then u.name.value
    else if Present(EmailName(u.email)) then EmailName(u.email).value
    else "User"
  }

  /** `n[0]` joined into the initials: the first character of a word, or
      nothing for the empty words that consecutive spaces produce. */
  function Head(w: string): string {
    if w == [] then [] else [w[0]]
  }

  function Heads(words: seq<string>): (r: seq<string>)
    ensures |r| == |words|
    ensures forall k :: 0 <= k < |r| ==> r[k] == Head(words[k])
  {
    if words == [] then [] else [Head(words[0])] + Heads(words[1..])
  }

  /** `displayName.split(' ').map(n => n[0]).join('').toUpperCase().slice(0, 2)`. */
  function Initials(name: string): (r: string)
    ensures |r| == if |WordStarts(name, true)| < 2 then |WordStarts(name, true)| else 2
    ensures r == Upper(WordStarts(name, true))[..|r|]
  {
    var letters := Upper(Join(Heads(Split(name, " ")), ""));
    HeadsOfWordsAreWordStarts(name);
    if |letters| <= 2 then letters else letters[..2]
  }

  /** An independent description of the initials: the characters of `s`
      that are not a space and follow a space or the start of the text
      (`prevSpace` says whether the character before `s` was a space). */
  function WordStarts(s: string, prevSpace: bool): string
    decreases |s|
  {
    if s == [] then []
    else (if s[0] != ' ' && prevSpace then [s[0]] else []) + WordStarts(s[1..], s[0] == ' ')
  }

  lemma {:induction false} WordStartsAppend(a: string, b: string, prevSpace: bool)
    ensures WordStarts(a + b, prevSpace) ==
            WordStarts(a, prevSpace) + WordStarts(b, if a == [] then prevSpace else a[|a| - 1] == ' ')
    decreases |a|
  {
    if a != [] {
      assert (a + b)[0] == a[0];
      assert (a + b)[1..] == a[1..] + b;
      WordStartsAppend(a[1..], b, a[0] == ' ');
      assert |a| > 1 ==> a[1..][|a[1..]| - 1] == a[|a| - 1];
    } else {
      assert a + b == b;
    }
  }

  lemma {:induction false} WordStartsOfWord(w: string, prevSpace: bool)
    requires ' ' !in w
    ensures WordStarts(w, prevSpace) == if prevSpace then Head(w) else []
    decreases |w|
  {
    if w != [] {
      WordStartsOfWord(w[1..], false);
    }
  }

  lemma JoinEmptyCons(head: string, rest: seq<string>)
    requires |rest| >= 1
    ensures Join([head] + rest, "") == head + Join(rest, "")
  {
    JoinCons(head, rest, "");
    assert head + "" == head;
  }

  /** No space occurs before the first match of " ". */
  lemma NoSpaceBefore(s: string, i: nat)
    requires i <= |s|
    requires forall j :: 0 <= j < i ==> !MatchAt(s, " ", j)
    ensures ' ' !in s[..i]
  {
    forall j | 0 <= j < i ensures s[..i][j] != ' ' {
      assert !MatchAt(s, " ", j);
      assert s[j..j + 1] == [s[j]];
    }
  }

  /** Taking the first character of every space-separated word picks out
      exactly the word starts of the text. */
  lemma {:induction false} HeadsOfWordsAreWordStarts(s: string)
    ensures Join(Heads(Split(s, " ")), "") == WordStarts(s, true)
    decreases |s|
  {
    match IndexOf(s, " ")
    case None =>
      NoSpaceBefore(s, |s|);
      assert s[..|s|] == s;
      WordStartsOfWord(s, true);
    case Some(i) =>
      HeadsOfWordsAreWordStarts(s[i + 1..]);
      HeadsStep(s, i);
  }

  /** The inductive step: the first word ends at the space at `i`. */
  lemma HeadsStep(s: string, i: nat)
    requires IndexOf(s, " ") == Some(i)
    requires Join(Heads(Split(s[i + 1..], " ")), "") == WordStarts(s[i + 1..], true)
    ensures Join(Heads(Split(s, " ")), "") == WordStarts(s, true)
  {
    HeadsOfSplitAt(s, i);
    WordStartsAt(s, i);
  }

  lemma HeadsOfSplitAt(s: string, i: nat)
    requires IndexOf(s, " ") == Some(i)
    ensures Join(Heads(Split(s, " ")), "") == Head(s[..i]) + Join(Heads(Split(s[i + 1..], " ")), "")
  {
    var words := Split(s[i + 1..], " ");
    SplitAt(s, " ", i);
    assert Heads([s[..i]] + words) == [Head(s[..i])] + Heads(words);
    JoinEmptyCons(Head(s[..i]), Heads(words));
  }

  lemma WordStartsAt(s: string, i: nat)
    requires IndexOf(s, " ") == Some(i)
    ensures WordStarts(s, true) == Head(s[..i]) + WordStarts(s[i + 1..], true)
  {
    var word, rest := s[..i], s[i + 1..];
    assert s[i..i + 1] == " ";
    NoSpaceBefore(s, i);
    SliceParts(s, i, i + 1);
    assert s == word + ([' '] + rest);
    WordStartsAppend(word, [' '] + rest, true);
    WordStartsOfWord(word, true);
    assert ([' '] + rest)[1..] == rest;
  }

  /** The menu renders nothing without a signed-in user; otherwise it
      shows the user's display name and its initials. */
  function Render(user: Option<User>): (v: Option<MenuView>)
    ensures v.None? <==> user.None?
    ensures v.Some? ==> v.value.displayName != "" && |v.value.initials| <= 2
    ensures v.Some? ==> v.value.displayName == DisplayName(user.value)
    ensures v.Some? ==> v.value.initials == Initials(DisplayName(user.value))
  {
    match user
    case None => None
    case Some(u) =>
      var name := DisplayName(u);
      Some(MenuView(name, Initials(name)))
  }

  /** Two words give two initials, upper-cased. */
  lemma InitialsExample()
    ensures Initials("jo Li") == "JL"
  {
    assert WordStarts("i", false) == [];
    assert WordStarts("Li", true) == "L";
    assert WordStarts(" Li", false) == "L";
    assert WordStarts("o Li", false) == "L";
    assert WordStarts("jo Li", true) == "jL";
    assert Upper("jL") == "JL";
  }

  /** The deletion button's state (`showDeleteConfirm`, `isDeleting`) and the
      effects of its handler: how often `deleteAccount` was called and
      whether the page navigated home. */
  class DeleteButton {
    var showDeleteConfirm: bool
    var isDeleting: bool
    var deleteCalls: nat
    var navigatedHome: bool

    constructor ()
      ensures !showDeleteConfirm && !isDeleting && deleteCalls == 0 && !navigatedHome
    {
      showDeleteConfirm, isDeleting, deleteCalls, navigatedHome := false, false, 0, false;
    }

    /** `handleDeleteAccount`; `deleteSucceeds` is the outcome of the
        `deleteAccount` call, when one is made. */
    method HandleDeleteAccount(deleteSucceeds: bool)
      modifies this
      ensures !old(showDeleteConfirm) ==>
                showDeleteConfirm && isDeleting == old(isDeleting) &&
                deleteCalls == old(deleteCalls) && navigatedHome == old(navigatedHome)
      ensures old(showDeleteConfirm) ==> deleteCalls == old(deleteCalls) + 1
      ensures old(showDeleteConfirm) && deleteSucceeds ==> isDeleting && showDeleteConfirm && navigatedHome
      ensures old(showDeleteConfirm) && !deleteSucceeds ==>
                !isDeleting && !showDeleteConfirm && navigatedHome == old(navigatedHome)
    {
      if !showDeleteConfirm {
        showDeleteConfirm := true;
        return;
      }
      isDeleting := true;
      deleteCalls := deleteCalls + 1;
      if deleteSucceeds {
        navigatedHome := true;
      } else {
        isDeleting := false;
        showDeleteConfirm := false;
      }
    }
  }
}
