/** The profile form (frontend/src/components/EditProfileModal.jsx): the
    initial text of the two list fields, the comma-list parser applied on
    success, and the body the form sends to the profile handler. */
module EditProfile {
  import opened Wrappers
  import opened Schema
  import opened Seqs
  import opened Text
  import UserController

  /** The list separator the form shows between items. */
  const ListSeparator: string := ", "

  /** `list?.join(', ') || ''`: the items joined by ", ", or "" when the list is missing. */
  function InitialText(list: Option<seq<string>>): (r: string)
    ensures list.None? ==> r == ""
    ensures list.Some? ==> r == Join(list.value, ListSeparator)
  {
    match list
    case None => ""
    case Some(xs) =>
      var joined := Join(xs, ListSeparator);
      if joined != "" then joined else ""
  }

  /** Every piece trimmed (`.map(i => i.trim())`). */
  function TrimAll(pieces: seq<string>): (r: seq<string>)
    ensures |r| == |pieces| && forall i :: 0 <= i < |pieces| ==> r[i] == Trim(pieces[i])
  {
    seq(|pieces|, i requires 0 <= i < |pieces| => Trim(pieces[i]))
  }

  /** The callback `i => i !== ''`. */
  function NonEmpty(): string -> bool {
    (x: string) => x != ""
  }

  /** `text.split(',').map(i => i.trim()).filter(i => i !== '')`. */
  function ParseList(text: string): seq<string> {
    Filter(TrimAll(Split(text, ',')), NonEmpty())
  }

  /** An item the parser can produce: non-empty, trimmed and free of commas. */
  predicate GoodItem(x: string) {
    x != "" && IsTrimmed(x) && ',' !in x
  }

  /** A character of a contained string is a character of the text. */
  lemma ContainsChars(s: string, t: string, c: char)
    requires Contains(s, t) && c in t
    ensures c in s
  {
    ContainsIff(s, t);
    var i :| 0 <= i <= |s| && t <= s[i..];
    var j :| 0 <= j < |t| && t[j] == c;
    assert s[i + j] == c;
  }

  /** Every parsed item is non-empty, trimmed and comma-free; order and
      duplicates of the pieces are kept (the result is a subsequence of the
      trimmed pieces). */
  lemma ParsedItemsGood(text: string)
    ensures forall k :: 0 <= k < |ParseList(text)| ==> GoodItem(ParseList(text)[k])
    ensures IsSubsequence(ParseList(text), TrimAll(Split(text, ',')))
  {
    var pieces := Split(text, ',');
    var trimmed := TrimAll(pieces);
    var r := ParseList(text);
    forall k | 0 <= k < |r|
      ensures GoodItem(r[k])
    {
      assert r[k] in trimmed;
      var i :| 0 <= i < |trimmed| && trimmed[i] == r[k];
      TrimIsInfix(pieces[i]);
      if ',' in r[k] {
        ContainsChars(pieces[i], r[k], ',');
      }
    }
    FilterIsSubsequence(trimmed, NonEmpty());
  }

  /** Trimming a piece that starts with at most one space before a good item gives the item. */
  lemma TrimHead(p: string, x: string)
    requires p == "" || p == " "
    requires GoodItem(x)
    ensures Trim(p + x) == x && ',' !in p + x
  {
    if p == "" {
      assert p + x == x;
      TrimTrimmed(x);
    } else {
      TrimLeadingSpace(x);
    }
  }

  /** The trimmed, non-empty pieces of a piece list. */
  function Kept(pieces: seq<string>): seq<string> {
    Filter(TrimAll(pieces), NonEmpty())
  }

  /** A first piece that trims to something non-empty is kept, trimmed, in front. */
  lemma KeptCons(head: string, tail: seq<string>)
    requires Trim(head) != ""
    ensures Kept([head] + tail) == [Trim(head)] + Kept(tail)
  {
    var t := TrimAll([head] + tail);
    TrimAllCons(head, tail);
    FilterCons(t, NonEmpty());
  }

  lemma TrimAllCons(head: string, tail: seq<string>)
    ensures TrimAll([head] + tail) == [Trim(head)] + TrimAll(tail)
  {
    var t := TrimAll([head] + tail);
    var u := [Trim(head)] + TrimAll(tail);
    assert |t| == |u|;
    forall i | 0 <= i < |t|
      ensures t[i] == u[i]
    {
      if i > 0 {
        assert ([head] + tail)[i] == tail[i - 1];
      }
    }
  }

  /** A join of two or more items is the first item, a comma, and a space before the rest. */
  lemma JoinUnfold(p: string, xs: seq<string>)
    requires |xs| > 1
    ensures p + Join(xs, ListSeparator) == (p + xs[0]) + [','] + (" " + Join(xs[1..], ListSeparator))
  {
    var rest := Join(xs[1..], ListSeparator);
    assert Join(xs, ListSeparator) == xs[0] + ListSeparator + rest;
    assert ListSeparator == [','] + " ";
    assert xs[0] + ([','] + " ") + rest == xs[0] + [','] + (" " + rest);
  }

  /** Parsing a single good item, after at most one space, gives the item. */
  lemma ParseOne(p: string, x: string)
    requires p == "" || p == " "
    requires GoodItem(x)
    ensures ParseList(p + x) == [x]
  {
    var y := p + x;
    TrimHead(p, x);
    SplitPlain(y, ',');
    assert Split(y, ',') == [y];
    assert TrimAll([y]) == [x];
    assert Kept([y]) == [x] by {
      FilterCons([x], NonEmpty());
      assert [x][1..] == [];
    }
  }

  /** Parsing a good item, a comma and more text: the item, then the parse of the text. */
  lemma ParseStep(p: string, x: string, rest: string)
    requires p == "" || p == " "
    requires GoodItem(x)
    ensures ParseList((p + x) + [','] + rest) == [x] + ParseList(rest)
  {
    TrimHead(p, x);
    SplitAround(p + x, rest, ',');
    KeptCons(p + x, Split(rest, ','));
  }

  /** The step of the round trip: if the rest of a join parses back, so does the whole join. */
  lemma ParseJoinStep(p: string, xs: seq<string>)
    requires p == "" || p == " "
    requires |xs| > 1 && GoodItem(xs[0])
    requires ParseList(" " + Join(xs[1..], ListSeparator)) == xs[1..]
    ensures ParseList(p + Join(xs, ListSeparator)) == xs
  {
    var rest := Join(xs[1..], ListSeparator);
    JoinUnfold(p, xs);
    ParseStep(p, xs[0], " " + rest);
    assert xs == [xs[0]] + xs[1..];
  }

  /** Parsing `p + join(xs)` for white-space `p` of at most one space gives `xs` back. */
  lemma {:induction false} ParseJoinFrom(p: string, xs: seq<string>)
    requires p == "" || p == " "
    requires |xs| >= 1
    requires forall k :: 0 <= k < |xs| ==> GoodItem(xs[k])
    ensures ParseList(p + Join(xs, ListSeparator)) == xs
    decreases |xs|
  {
    if |xs| == 1 {
      assert p + Join(xs, ListSeparator) == p + xs[0];
      ParseOne(p, xs[0]);
    } else {
      var tail := xs[1..];
      assert forall k :: 0 <= k < |tail| ==> GoodItem(tail[k]) by {
        forall k | 0 <= k < |tail|
          ensures GoodItem(tail[k])
        {
          assert tail[k] == xs[k + 1];
        }
      }
      ParseJoinFrom(" ", tail);
      ParseJoinStep(p, xs);
    }
  }

  /** The empty text parses to no items. */
  lemma ParseEmpty()
    ensures ParseList("") == []
  {
    assert Split("", ',') == [""];
    assert TrimAll([""]) == [Trim("")];
    assert Trim("") == "";
  }

  /** The round trip: joining items the parser could have produced and parsing
      the text gives the items back. */
  lemma ParseJoin(xs: seq<string>)
    requires forall k :: 0 <= k < |xs| ==> GoodItem(xs[k])
    ensures ParseList(Join(xs, ListSeparator)) == xs
  {
    if |xs| == 0 {
      ParseEmpty();
    } else {
      ParseJoinFrom("", xs);
      assert "" + Join(xs, ListSeparator) == Join(xs, ListSeparator);
    }
  }

  /** Parsing is stable under re-joining. */
  lemma ParseJoinParse(text: string)
    ensures ParseList(Join(ParseList(text), ListSeparator)) == ParseList(text)
  {
    ParsedItemsGood(text);
    ParseJoin(ParseList(text));
  }

  /** Opening the form on a user and saving the list fields untouched parses
      back to the stored lists when their items are parser-shaped; a missing
      list parses to nothing. */
  lemma InitialTextRoundTrip(list: Option<seq<string>>)
    requires list.Some? ==> forall k :: 0 <= k < |list.value| ==> GoodItem(list.value[k])
    ensures ParseList(InitialText(list)) == list.GetOr([])
  {
    if list.Some? {
      ParseJoin(list.value);
    } else {
      ParseEmpty();
    }
  }

  // ---------------------------------------------------------------- the form

  /** The form state: five strings. */
  datatype ProfileForm = ProfileForm(fullName: string, email: string, dob: string,
                                     interests: string, personalityTraits: string)

  /** The initial form for `user` (`user?.field || ''`); an absent string field is "". */
  function InitialForm(user: Option<UserView>): (f: ProfileForm)
    ensures user.None? ==> f == ProfileForm("", "", "", "", "")
    ensures user.Some? ==> f.fullName == user.value.fullName && f.email == user.value.email && f.dob == user.value.dob
  {
    match user
    case None => ProfileForm("", "", "", "", "")
    case Some(u) => ProfileForm(u.fullName, u.email, u.dob, InitialText(Some(u.interests)), InitialText(Some(u.personalityTraits)))
  }

  /** Saving the form with the list fields untouched gives back the stored
      lists, when their items are parser-shaped. */
  lemma InitialFormRoundTrip(u: UserView)
    requires forall k :: 0 <= k < |u.interests| ==> GoodItem(u.interests[k])
    requires forall k :: 0 <= k < |u.personalityTraits| ==> GoodItem(u.personalityTraits[k])
    ensures ParseList(InitialForm(Some(u)).interests) == u.interests
    ensures ParseList(InitialForm(Some(u)).personalityTraits) == u.personalityTraits
  {
    InitialTextRoundTrip(Some(u.interests));
    InitialTextRoundTrip(Some(u.personalityTraits));
  }

  /** `JSON.stringify(formData)`: every field is sent, the read-only email included. */
  function UpdateBody(f: ProfileForm): (b: UserController.ProfileBody)
    ensures b.fullName == Some(f.fullName) && b.email == Some(f.email)
    ensures b.dob == Some(f.dob) && b.interests == Some(f.interests) && b.personalityTraits == Some(f.personalityTraits)
  {
    UserController.ProfileBody(Some(f.fullName), Some(f.email), Some(f.dob), Some(f.interests), Some(f.personalityTraits))
  }

  /** The user handed to `onSuccess`: the server's record with the two lists
      replaced by the parsed form text. */
  function LocalUser(server: UserView, f: ProfileForm): (v: UserView)
    ensures v.interests == ParseList(f.interests) && v.personalityTraits == ParseList(f.personalityTraits)
    ensures v.(interests := server.interests, personalityTraits := server.personalityTraits) == server
  {
    server.(interests := ParseList(f.interests), personalityTraits := ParseList(f.personalityTraits))
  }

  /** Saving the form opened on a stored user, whatever was typed into the
      editable fields, succeeds in a valid store, keeps the email (the field
      is read-only, so the value sent is the stored one) and stores the new
      name, while the stored lists and birth date stay as they were: only the
      copy handed to `onSuccess` shows the edited lists. */
  lemma SaveKeepsEmailAndLists(db: Db, k: nat, name: string, dob: string, interests: string, traits: string)
    requires Valid(db) && k < |db.users|
    ensures var f := InitialForm(Some(WithoutPassword(db.users[k])))
                       .(fullName := name, dob := dob, interests := interests, personalityTraits := traits);
            var out := UserController.UpdateProfile(db, db.users[k].id, UpdateBody(f));
            && out.response.Ok?
            && out.db.users[k].email == db.users[k].email
            && out.db.users[k].fullName == name
            && out.db.users[k].dob == db.users[k].dob
            && out.db.users[k].interests == db.users[k].interests
            && out.db.users[k].personalityTraits == db.users[k].personalityTraits
            && LocalUser(out.response.value.user, f).interests == ParseList(interests)
  {
    var f := InitialForm(Some(WithoutPassword(db.users[k])))
               .(fullName := name, dob := dob, interests := interests, personalityTraits := traits);
    var id := db.users[k].id;
    var found := FindUser(db.users, id);
    assert found == Some(k);
    assert !UserController.EmailTaken(db.users, k, db.users[k].email);
    UserController.UpdateProfileTouchesTwoFields(db, id, UpdateBody(f));
  }
}
