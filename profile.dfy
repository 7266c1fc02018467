/**
 * The profile page: the initials shown when there is no avatar, and the
 * two ways the form data changes.
 */
module Profile {
  import opened Wrappers
  import opened Text
  import opened Seqs

  /** A piece of the name that is a word, not the empty text between two spaces. */
  predicate IsWord(w: string) {
    w != ""
  }

  /**
   * `n[0]` of every piece, joined: an empty piece gives `undefined`, which
   * `join` writes as nothing. So the result is the first character of each
   * word, in order.
   */
  function FirstChars(parts: seq<string>): (r: string)
    ensures |r| == |Filter(IsWord, parts)|
    ensures forall i :: 0 <= i < |r| ==> r[i] == Filter(IsWord, parts)[i][0]
  {
    if parts == [] then ""
    else
      assert parts == [parts[0]] + parts[1..];
      (if parts[0] != "" then [parts[0][0]] else []) + FirstChars(parts[1..])
  }

  /**
   * `getInitials`: `U` for a missing or empty name; otherwise the first
   * letters of the space-separated words, upper-cased, at most two.
   */
  function Initials(name: Option<string>): (r: string)
    ensures |r| <= 2
    ensures name == None || name == Some("") ==> r == "U"
    ensures name != None && name != Some("") ==>
              var words := Filter(IsWord, Split(name.value, ' '));
              && |r| == (if |words| < 2 then |words| else 2)
              && forall i :: 0 <= i < |r| ==> r[i] == UpperChar(words[i][0])
  {
    if name == None || name == Some("") then "U"
    else
      var all := ToUpper(FirstChars(Split(name.value, ' ')));
      all[..if |all| < 2 then |all| else 2]
  }

  /** `John Doe` gives `JD`: one initial per word, upper-cased. */
  lemma TwoWordInitials(first: string, last: string)
    requires first != "" && last != "" && ' ' !in first && ' ' !in last
    ensures Initials(Some(first + " " + last)) == [UpperChar(first[0]), UpperChar(last[0])]
  {
    assert Join([first, last], ' ') == first + " " + last by {
      assert [first, last][1..] == [last];
    }
    WordsInitials([first, last]);
  }

  /** A name of one or more words separated by single spaces: the upper-cased initials of its first two words. */
  lemma WordsInitials(words: seq<string>)
    requires |words| >= 1
    requires forall k :: 0 <= k < |words| ==> words[k] != "" && ' ' !in words[k]
    ensures var r := Initials(Some(Join(words, ' ')));
            && |r| == (if |words| < 2 then |words| else 2)
            && forall i :: 0 <= i < |r| ==> r[i] == UpperChar(words[i][0])
  {
    SplitJoin(words, ' ');
    FilterKeepsAll(IsWord, words);
    assert Join(words, ' ') != "" by {
      if |words| > 1 {
        assert Join(words, ' ') == words[0] + [' '] + Join(words[1..], ' ');
      }
    }
  }

  /** A run of spaces between words adds nothing: `John  Doe` gives `JD` too. */
  lemma DoubleSpaceInitials(first: string, last: string)
    requires first != "" && last != "" && ' ' !in first && ' ' !in last
    ensures Initials(Some(first + "  " + last)) == Initials(Some(first + " " + last))
  {
    TwoWordInitials(first, last);
    var tail := "" + [' '] + last;
    assert first + "  " + last == first + [' '] + tail;
    SplitPrefix(first, tail, ' ');
    SplitPrefix("", last, ' ');
    SplitNoSeparator(last, ' ');
    var parts := Split(first + "  " + last, ' ');
    assert parts == [first, "", last];
    assert FirstChars(parts) == [first[0], last[0]];
  }

  /** A name of spaces only is not empty, so it gets no `U`: its initials are empty. */
  lemma BlankNameHasNoInitials()
    ensures Initials(Some(" ")) == ""
  {
    assert " " == "" + [' '] + "";
    SplitPrefix("", "", ' ');
  }

  // -------------------------------------------------------------- form data

  datatype ProfileForm = ProfileForm(name: string, email: string, avatarUrl: string)

  /** The `name` attribute of the input that changed. */
  datatype ProfileField = NameField | EmailField | AvatarField

  /** `handleChange`: the named field takes the input's value, the others stay. */
  function HandleChange(form: ProfileForm, field: ProfileField, value: string): (r: ProfileForm)
    ensures field == NameField ==> r.name == value && r.email == form.email && r.avatarUrl == form.avatarUrl
    ensures field == EmailField ==> r.email == value && r.name == form.name && r.avatarUrl == form.avatarUrl
    ensures field == AvatarField ==> r.avatarUrl == value && r.name == form.name && r.email == form.email
  {
    match field
    case NameField => form.(name := value)
    case EmailField => form.(email := value)
    case AvatarField => form.(avatarUrl := value)
  }

  /** `selectAvatar`: a preset picture replaces the avatar URL and nothing else. */
  function SelectAvatar(form: ProfileForm, url: string): (r: ProfileForm)
    ensures r.avatarUrl == url && r.name == form.name && r.email == form.email
  {
    form.(avatarUrl := url)
  }

  /** Picking a preset is the same as typing its URL into the avatar field. */
  lemma SelectAvatarIsChange(form: ProfileForm, url: string)
    ensures SelectAvatar(form, url) == HandleChange(form, AvatarField, url)
  {
  }
}
