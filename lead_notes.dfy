/**
 * The lead's notes timeline: the notes newest first, the author line and avatar
 * initials, and the tag chips. Timestamps are integer milliseconds.
 */
module LeadNotes {
  import opened Wrappers
  import opened Sorting
  import Text

  /** The note fields the timeline reads; `authorName` is the note creator's name. */
  datatype Note = Note(id: string, createdAt: Option<int>, authorName: Option<string>, tags: Option<string>)

  /** The date compared: `createdAt` as a time, or 0 without one. */
  function CreatedAt(n: Note): int {
    n.createdAt.GetOr(0)
  }

  /** The comparator `dateB - dateA` (newest first), as an ascending sort key. */
  function NewestFirst(n: Note): int {
    -CreatedAt(n)
  }

  /** `sortedNotes`: no notes loaded gives an empty list; otherwise a sorted copy. */
  function SortedNotes(notes: Option<seq<Note>>): seq<Note> {
    if notes.None? then [] else SortBy(notes.value, NewestFirst)
  }

  /**
   * The timeline holds exactly the loaded notes, newest first; undated notes count as time
   * 0, and notes of the same date keep their loaded order.
   */
  lemma SortedNotesSpec(notes: Option<seq<Note>>, k: int)
    ensures notes.None? ==> SortedNotes(notes) == []
    ensures notes.Some? ==> multiset(SortedNotes(notes)) == multiset(notes.value)
    ensures forall i, j :: 0 <= i < j < |SortedNotes(notes)| ==>
              CreatedAt(SortedNotes(notes)[i]) >= CreatedAt(SortedNotes(notes)[j])
    ensures notes.Some? ==> WithKey(SortedNotes(notes), NewestFirst, k) == WithKey(notes.value, NewestFirst, k)
  {
    var r := SortedNotes(notes);
    forall i, j | 0 <= i < j < |r| ensures CreatedAt(r[i]) >= CreatedAt(r[j]) {
      assert NewestFirst(r[i]) <= NewestFirst(r[j]);
    }
    if notes.Some? {
      SortByIsStable(notes.value, NewestFirst, k);
    }
  }

  /** The author line: the creator's name, or "Unknown User". */
  function AuthorName(n: Note): string {
    OrElse(n.authorName, "Unknown User")
  }

  /** The first character of each piece (`n[0]`; an empty piece adds nothing), joined. */
  function FirstChars(parts: seq<string>): string {
    if parts == [] then ""
    else (if parts[0] == "" then "" else [parts[0][0]]) + FirstChars(parts[1..])
  }

  /** The avatar initials: the first letter of each space-separated part, upper-cased. */
  function Initials(name: string): string {
    Text.ToUpper(FirstChars(Text.Split(name, ' ')))
  }

  /** A one-word name gives its first letter, upper-cased. */
  lemma InitialsOfWord(w: string)
    requires w != "" && ' ' !in w
    ensures Initials(w) == [Text.UpperChar(w[0])]
  {
    Text.SplitNoSep(w, ' ');
    assert FirstChars([w]) == [w[0]] + FirstChars([]);
  }

  /** A name starting with a word gives that word's initial, then the rest's initials. */
  lemma InitialsOfWords(w: string, rest: string)
    requires w != "" && ' ' !in w
    ensures Initials(w + " " + rest) == [Text.UpperChar(w[0])] + Initials(rest)
  {
    Text.SplitAfterWord(w, ' ', rest);
    var parts := Text.Split(rest, ' ');
    assert ([w] + parts)[1..] == parts;
    assert FirstChars([w] + parts) == [w[0]] + FirstChars(parts);
    Text.ToUpperAppend([w[0]], FirstChars(parts));
  }

  /** The avatar: initials when the creator has a name, the user icon otherwise. */
  datatype Avatar = InitialsAvatar(text: string) | UserIcon

  function AvatarOf(n: Note): (a: Avatar)
    ensures a.UserIcon? <==> AuthorName(n) == "Unknown User" && !Truthy(n.authorName)
  {
    if Truthy(n.authorName) then InitialsAvatar(Initials(n.authorName.value)) else UserIcon
  }

  /** The tag chips: none unless the tags text is non-empty. */
  predicate ShowTags(n: Note) {
    Truthy(n.tags)
  }

  /** `tags.split(",").map(tag => tag.trim())`. */
  function TagList(tags: string): seq<string> {
    TrimAll(Text.Split(tags, ','))
  }

  function TrimAll(parts: seq<string>): (r: seq<string>)
    ensures |r| == |parts|
  {
    if parts == [] then [] else [Text.Trim(parts[0])] + TrimAll(parts[1..])
  }

  lemma {:induction false} TrimAllAt(parts: seq<string>, i: nat)
    requires i < |parts|
    ensures TrimAll(parts)[i] == Text.Trim(parts[i])
  {
    if i > 0 {
      TrimAllAt(parts[1..], i - 1);
    }
  }

  /** One chip per comma-separated piece, and the pieces joined by commas give back the text. */
  lemma TagListPieces(tags: string)
    ensures |TagList(tags)| == |Text.Split(tags, ',')|
    ensures Text.Join(Text.Split(tags, ','), ",") == tags
  {
    Text.JoinSplit(tags, ',');
  }

  /** A well-formed chip: no comma, and no white space at either end. */
  predicate CleanChip(t: string) {
    ',' !in t && (t != "" ==> !Text.IsSpace(t[0]) && !Text.IsSpace(t[|t| - 1]))
  }

  /** Each chip is its piece trimmed, so it is clean. */
  lemma TagChip(tags: string, i: nat)
    requires i < |TagList(tags)|
    ensures TagList(tags)[i] == Text.Trim(Text.Split(tags, ',')[i])
    ensures CleanChip(TagList(tags)[i])
  {
    var parts := Text.Split(tags, ',');
    assert TagList(tags) == TrimAll(parts);
    ChipOf(parts, i);
  }

  lemma ChipOf(parts: seq<string>, i: nat)
    requires i < |parts|
    requires forall p :: p in parts ==> ',' !in p
    ensures TrimAll(parts)[i] == Text.Trim(parts[i])
    ensures CleanChip(TrimAll(parts)[i])
  {
    var piece := parts[i];
    assert piece in parts;
    TrimAllAt(parts, i);
    TrimmedPiece(piece);
  }

  lemma TrimmedPiece(p: string)
    requires ',' !in p
    ensures CleanChip(Text.Trim(p))
  {
    Text.TrimChars(p, ',');
  }
}
