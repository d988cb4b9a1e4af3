/** The tag field of the playground: a list of lower-case tags without
    repeats, at most `maxTags` long, and the text being typed. */
module TagInput {
  import opened Common

  /** The keys `handleKeyDown` reacts to; any other key does nothing. */
  datatype Key = Enter | Backspace | OtherKey

  /** `maxTags = 10` */
  const DEFAULT_MAX_TAGS: int := 10

  /** A tag list the field keeps: no repeats and at most `maxTags` tags. */
  predicate TagsValid(tags: seq<string>, maxTags: int) {
    Distinct(tags) && |tags| <= maxTags
  }

  /** `inputValue.trim().toLowerCase()` */
  function NewTag(input: string): string {
    ToLower(Trim(input))
  }

  /** The tag list after a key press. */
  function TagsAfterKey(tags: seq<string>, input: string, key: Key, maxTags: int): (r: seq<string>)
    ensures |r| <= |tags| + 1
  {
    if key == Enter && !IsBlank(input) then
      var t := NewTag(input);
      if t !in tags && |tags| < maxTags then tags + [t] else tags
    else if key == Backspace && input == "" && |tags| > 0 then
      tags[..|tags| - 1]
    else tags
  }

  /** The text being typed after a key press. */
  function InputAfterKey(input: string, key: Key): (r: string)
    ensures r == input || r == ""
  {
    if key == Enter && !IsBlank(input) then "" else input
  }

  /** `removeTag`: `value.filter(tag => tag !== tagToRemove)` */
  function RemoveTagFrom(tags: seq<string>, tag: string): (r: seq<string>)
    ensures tag !in r
    ensures forall x :: x in r <==> x in tags && x != tag
  {
    FilterMembers(tags, Differs(tag));
    Filter(tags, Differs(tag))
  }

  /** The field is disabled once the list is full. */
  predicate Disabled(tags: seq<string>, maxTags: int) {
    |tags| >= maxTags
  }

  /** The tag list after a key press on the field: a disabled input
      receives no key events, so a full list is left as it is. */
  function TagsOnKey(tags: seq<string>, input: string, key: Key, maxTags: int): (r: seq<string>)
    ensures !Disabled(tags, maxTags) ==> r == TagsAfterKey(tags, input, key, maxTags)
  {
    if Disabled(tags, maxTags) then tags else TagsAfterKey(tags, input, key, maxTags)
  }

  /** The typed text after a key press on the field. */
  function InputOnKey(tags: seq<string>, input: string, key: Key, maxTags: int): (r: string)
    ensures !Disabled(tags, maxTags) ==> r == InputAfterKey(input, key)
  {
    if Disabled(tags, maxTags) then input else InputAfterKey(input, key)
  }

  // ---------------------------------------------------------------------
  // What each event does

  /** Enter on non-blank text adds its trimmed lower-case form exactly when
      that tag is new and there is room, and clears the text either way. */
  lemma EnterAdds(tags: seq<string>, input: string, maxTags: int)
    requires !IsBlank(input)
    ensures var r := TagsAfterKey(tags, input, Enter, maxTags);
      && InputAfterKey(input, Enter) == ""
      && (NewTag(input) !in tags && |tags| < maxTags ==> r == tags + [NewTag(input)])
      && (NewTag(input) in tags || |tags| >= maxTags ==> r == tags)
      && (NewTag(input) in r <==> NewTag(input) in tags || |tags| < maxTags)
  {
    var r := TagsAfterKey(tags, input, Enter, maxTags);
    if NewTag(input) !in tags && |tags| < maxTags {
      assert r[|tags|] == NewTag(input);
    }
  }

  /** A tag as the field stores it: not empty, no white space at either
      end and no upper-case ASCII letter. */
  predicate TagShaped(t: string) {
    && t != ""
    && !IsSpace(t[0]) && !IsSpace(t[|t| - 1])
    && forall i :: 0 <= i < |t| ==> !('A' <= t[i] <= 'Z')
  }

  /** An added tag is never blank and holds no upper-case letter. */
  lemma AddedTagShape(input: string)
    requires !IsBlank(input)
    ensures TagShaped(NewTag(input))
  {
    LowerKeepsEnds(Trim(input));
  }

  lemma LowerKeepsEnds(u: string)
    requires u != [] && !IsSpace(u[0]) && !IsSpace(u[|u| - 1])
    ensures TagShaped(ToLower(u))
  {
    LowerKeepsSpace(u[0]);
    LowerKeepsSpace(u[|u| - 1]);
  }

  lemma LowerKeepsSpace(c: char)
    ensures IsSpace(LowerChar(c)) <==> IsSpace(c)
  {
  }

  /** Enter on blank text changes nothing. */
  lemma EnterBlankNoChange(tags: seq<string>, input: string, maxTags: int)
    requires IsBlank(input)
    ensures TagsAfterKey(tags, input, Enter, maxTags) == tags
    ensures InputAfterKey(input, Enter) == input
  {
  }

  /** Backspace on empty text drops exactly the last tag. */
  lemma BackspaceDropsLast(tags: seq<string>, maxTags: int)
    requires |tags| > 0
    ensures var r := TagsAfterKey(tags, "", Backspace, maxTags);
      && r + [tags[|tags| - 1]] == tags
      && InputAfterKey("", Backspace) == ""
  {
  }

  /** Backspace on non-empty text leaves the tags to the text editing. */
  lemma BackspaceWithText(tags: seq<string>, input: string, maxTags: int)
    requires input != ""
    ensures TagsAfterKey(tags, input, Backspace, maxTags) == tags
  {
  }

  /** A full list takes no key press at all: neither the tags nor the text
      change. Only a tag's remove button, which stays enabled, makes room
      again. */
  lemma DisabledKeepsTags(tags: seq<string>, input: string, key: Key, tag: string, maxTags: int)
    requires Disabled(tags, maxTags)
    ensures TagsOnKey(tags, input, key, maxTags) == tags
    ensures InputOnKey(tags, input, key, maxTags) == input
    ensures TagsValid(tags, maxTags) && tag in tags ==> !Disabled(RemoveTagFrom(tags, tag), maxTags)
  {
    if TagsValid(tags, maxTags) && tag in tags {
      RemoveTagFromDistinct(tags, tag);
    }
  }

  /** Removing a tag from a list without repeats takes away that one tag
      and no other. */
  lemma RemoveTagFromDistinct(tags: seq<string>, tag: string)
    requires Distinct(tags)
    ensures var r := RemoveTagFrom(tags, tag);
      && Distinct(r)
      && |r| == |tags| - (if tag in tags then 1 else 0)
  {
    FilterDistinct(tags, Differs(tag));
    CountOthers(tags, tag);
  }

  lemma {:induction false} CountOthers(tags: seq<string>, tag: string)
    requires Distinct(tags)
    ensures Count(tags, Differs(tag)) == |tags| - (if tag in tags then 1 else 0)
    decreases |tags|
  {
    if tags != [] {
      CountOthers(tags[1..], tag);
      assert tag in tags <==> tags[0] == tag || tag in tags[1..];
      if tags[0] == tag {
        forall j | 0 <= j < |tags[1..]| ensures tags[1..][j] != tag {
          assert tags[1..][j] == tags[j + 1];
        }
      }
    }
  }

  /** Every event keeps the list without repeats and within the cap. */
  lemma EventsKeepValid(tags: seq<string>, input: string, key: Key, tag: string, maxTags: int)
    requires TagsValid(tags, maxTags)
    ensures TagsValid(TagsAfterKey(tags, input, key, maxTags), maxTags)
    ensures TagsValid(RemoveTagFrom(tags, tag), maxTags)
  {
    var r := TagsAfterKey(tags, input, key, maxTags);
    if key == Enter && !IsBlank(input) && NewTag(input) !in tags && |tags| < maxTags {
      assert r == tags + [NewTag(input)];
      forall i, j | 0 <= i < j < |r| ensures r[i] != r[j] {
        if j == |tags| {
          assert r[i] == tags[i];
        }
      }
    }
    RemoveTagFromDistinct(tags, tag);
  }

  // ---------------------------------------------------------------------
  // The component

  class TagField {
    /** `value`, owned by the parent and replaced through `onChange` */
    var tags: seq<string>
    /** `inputValue` */
    var input: string
    const maxTags: int

    predicate Valid()
      reads this
    {
      TagsValid(tags, maxTags)
    }

    constructor (value: seq<string>, maxTagsProp: Option<int>)
      ensures tags == value && input == ""
      ensures maxTags == maxTagsProp.GetOr(DEFAULT_MAX_TAGS)
    {
      tags := value;
      input := "";
      maxTags := maxTagsProp.GetOr(DEFAULT_MAX_TAGS);
    }

    /** The input's `onChange`; a disabled input takes no typing. */
    method Edit(text: string)
      modifies this
      ensures input == (if Disabled(old(tags), maxTags) then old(input) else text)
      ensures tags == old(tags)
      ensures old(Valid()) ==> Valid()
    {
      if !IsDisabled() {
        input := text;
      }
    }

    /** `handleKeyDown`, reached only while the input is enabled. */
    method KeyDown(key: Key)
      modifies this
      ensures tags == TagsOnKey(old(tags), old(input), key, maxTags)
      ensures input == InputOnKey(old(tags), old(input), key, maxTags)
      ensures old(Valid()) ==> Valid()
    {
      if IsDisabled() {
        return;
      }
      if Valid() {
        EventsKeepValid(tags, input, key, "", maxTags);
      }
      if key == Enter && !IsBlank(input) {
        var newTag := ToLower(Trim(input));
        if newTag !in tags && |tags| < maxTags {
          tags := tags + [newTag];
        }
        input := "";
      } else if key == Backspace && input == "" && |tags| > 0 {
        tags := tags[..|tags| - 1];
      }
    }

    /** `removeTag` */
    method RemoveTag(tag: string)
      modifies this
      ensures tags == RemoveTagFrom(old(tags), tag) && input == old(input)
      ensures old(Valid()) ==> Valid()
    {
      tags := RemoveTagFrom(tags, tag);
      if old(Valid()) {
        EventsKeepValid(old(tags), input, OtherKey, tag, maxTags);
      }
    }

    /** `disabled={value.length >= maxTags}` */
    function IsDisabled(): (d: bool)
      reads this
      ensures d <==> Disabled(tags, maxTags)
      ensures Valid() && d ==> |tags| == maxTags
    {
      |tags| >= maxTags
    }
  }
}
