/** The result card: the tone badge's colour, chosen by a priority-ordered
    keyword test on the lower-cased tone, and the primary-text view that
    shows, and copies, either the paragraph or the bullet form. */
module CaptionCard {
  import opened AdTypes
  import Text
  import GeminiService

  /** The five badge styles, named by their colour. */
  datatype ToneStyle = Emerald | Orange | Purple | Rose | Blue

  /** Position of a style in the test order; `Blue` is the fallback. */
  function Rank(st: ToneStyle): nat
  {
    match st
    case Emerald => 0
    case Orange => 1
    case Purple => 2
    case Rose => 3
    case Blue => 4
  }

  /** The keywords that select each style; the fallback has none. */
  function Keywords(st: ToneStyle): seq<string>
  {
    match st
    case Emerald => ["direct", "sales"]
    case Orange => ["problem", "pain"]
    case Purple => ["story"]
    case Rose => ["urgency", "fomo"]
    case Blue => []
  }

  /** Some keyword of `keys` occurs in `t`. */
  predicate MentionsAny(t: string, keys: seq<string>)
  {
    exists i :: 0 <= i < |keys| && Text.Includes(t, keys[i])
  }

  /** `getToneStyle`. The result is the first style in test order one of
      whose keywords occurs in the lower-cased tone, and the fallback when
      none does. */
  function ToneStyleOf(tone: string): (st: ToneStyle)
    ensures st == Blue || MentionsAny(Text.Lower(tone), Keywords(st))
    ensures forall other :: Rank(other) < Rank(st) ==> !MentionsAny(Text.Lower(tone), Keywords(other))
  {
    var t := Text.Lower(tone);
    if Text.Includes(t, "direct") || Text.Includes(t, "sales") then
      assert Text.Includes(t, Keywords(Emerald)[0]) || Text.Includes(t, Keywords(Emerald)[1]); Emerald
    else if Text.Includes(t, "problem") || Text.Includes(t, "pain") then
      assert Text.Includes(t, Keywords(Orange)[0]) || Text.Includes(t, Keywords(Orange)[1]); Orange
    else if Text.Includes(t, "story") then
      assert Text.Includes(t, Keywords(Purple)[0]); Purple
    else if Text.Includes(t, "urgency") || Text.Includes(t, "fomo") then
      assert Text.Includes(t, Keywords(Rose)[0]) || Text.Includes(t, Keywords(Rose)[1]); Rose
    else Blue
  }

  /** The two clauses of `ToneStyleOf`'s contract pin the style down: any
      style that satisfies both is the one it returns. */
  lemma FirstMatchIsUnique(tone: string, st: ToneStyle)
    requires st == Blue || MentionsAny(Text.Lower(tone), Keywords(st))
    requires forall other :: Rank(other) < Rank(st) ==> !MentionsAny(Text.Lower(tone), Keywords(other))
    ensures st == ToneStyleOf(tone)
  {
    var r := ToneStyleOf(tone);
  }

  /** The badge ignores case: lower-casing the tone first changes nothing,
      and tones equal up to case get the same badge. */
  lemma CaseInsensitive(a: string, b: string)
    requires Text.Lower(a) == Text.Lower(b)
    ensures ToneStyleOf(a) == ToneStyleOf(b)
    ensures ToneStyleOf(Text.Lower(a)) == ToneStyleOf(a)
  {
    Text.LowerIdempotent(a);
  }

  /** A tone that mentions "direct" or "sales" is emerald whatever else it says. */
  lemma SalesWins(tone: string)
    requires Text.Includes(Text.Lower(tone), "direct") || Text.Includes(Text.Lower(tone), "sales")
    ensures ToneStyleOf(tone) == Emerald
  {
  }

  /** The blue fallback is given exactly to the tones that mention no
      keyword at all. */
  lemma FallbackIffNoKeyword(tone: string)
    ensures ToneStyleOf(tone) == Blue <==>
              forall st :: !MentionsAny(Text.Lower(tone), Keywords(st))
  {
    var st := ToneStyleOf(tone);
    if st == Blue {
      forall other
        ensures !MentionsAny(Text.Lower(tone), Keywords(other))
      {
        if other != Blue {
          assert Rank(other) < Rank(st);
        }
      }
    }
  }

  /** More text around a tone can only move its badge earlier in the test
      order, never later. */
  lemma MoreTextRanksNoLower(a: string, tone: string, b: string)
    ensures Rank(ToneStyleOf(a + tone + b)) <= Rank(ToneStyleOf(tone))
  {
    var st := ToneStyleOf(tone);
    if st != Blue {
      var keys := Keywords(st);
      var i :| 0 <= i < |keys| && Text.Includes(Text.Lower(tone), keys[i]);
      Text.LowerAppend(a + tone, b);
      Text.LowerAppend(a, tone);
      Text.IncludesExtend(Text.Lower(a), Text.Lower(tone), Text.Lower(b), keys[i]);
      assert MentionsAny(Text.Lower(a + tone + b), keys);
    }
  }

  /** Every keyword checked before the rule of `st`, in test order. */
  function KeywordsBefore(st: ToneStyle): seq<string>
  {
    match st
    case Emerald => []
    case Orange => Keywords(Emerald)
    case Purple => Keywords(Emerald) + Keywords(Orange)
    case Rose => Keywords(Emerald) + Keywords(Orange) + Keywords(Purple)
    case Blue => Keywords(Emerald) + Keywords(Orange) + Keywords(Purple) + Keywords(Rose)
  }

  /** A tone whose characters all lie in `letters` does not mention a
      keyword that has a letter missing from `letters` in both cases. */
  lemma LetterRulesOutKeyword(tone: string, letters: set<char>, key: string, c: char)
    requires forall i :: 0 <= i < |tone| ==> tone[i] in letters
    requires c in key && 'a' <= c <= 'z'
    requires c !in letters && (c as int - 32) as char !in letters
    ensures !Text.Includes(Text.Lower(tone), key)
  {
    Text.LowerKeepsAbsence(tone, c, (c as int - 32) as char);
    Text.MissingCharExcludes(Text.Lower(tone), key, c);
  }

  /** A tone spelled with `letters` gets badge `st` when it mentions the
      first keyword of `st` and each keyword checked earlier has a letter,
      `marks[k]`, that `letters` lacks in both cases. */
  lemma BadgeBySpelling(tone: string, letters: set<char>, st: ToneStyle, marks: seq<char>)
    requires forall i :: 0 <= i < |tone| ==> tone[i] in letters
    requires st != Blue ==> Text.Includes(Text.Lower(tone), Keywords(st)[0])
    requires |marks| == |KeywordsBefore(st)|
    requires forall k :: 0 <= k < |marks| ==>
               marks[k] in KeywordsBefore(st)[k] && 'a' <= marks[k] <= 'z' &&
               marks[k] !in letters && (marks[k] as int - 32) as char !in letters
    ensures ToneStyleOf(tone) == st
  {
    var before := KeywordsBefore(st);
    forall k | 0 <= k < |marks|
      ensures !Text.Includes(Text.Lower(tone), before[k])
    {
      LetterRulesOutKeyword(tone, letters, before[k], marks[k]);
    }
    forall other | Rank(other) < Rank(st)
      ensures !MentionsAny(Text.Lower(tone), Keywords(other))
    {
      var offset := match other
        case Emerald => 0
        case Orange => 2
        case Purple => 4
        case Rose => 5
        case Blue => 7;
      forall j | 0 <= j < |Keywords(other)|
        ensures Keywords(other)[j] == before[offset + j]
      {
      }
    }
    if st != Blue {
      assert MentionsAny(Text.Lower(tone), Keywords(st));
    }
    FirstMatchIsUnique(tone, st);
  }

  /** The characters each tone the prompt asks for is spelled with. */
  function PromptToneLetters(i: nat): set<char>
  {
    if i == 0 then {'D', 'i', 'r', 'e', 'c', 't', ' ', 'R', 's', 'p', 'o', 'n'}
    else if i == 1 then {'P', 'r', 'o', 'b', 'l', 'e', 'm', '-', 'S', 'u', 't', 'i', 'n'}
    else if i == 2 then {'S', 't', 'o', 'r', 'y', 'e', 'l', 'i', 'n', 'g'}
    else if i == 3 then {'S', 'o', 'c', 'i', 'a', 'l', ' ', 'P', 'r', 'f', '/', 'T', 'u', 's', 't'}
    else {'U', 'r', 'g', 'e', 'n', 'c', 'y', '/', 'F', 'O', 'M'}
  }

  /** The badge each tone the prompt asks for should get. */
  const PromptToneBadges: seq<ToneStyle> := [Emerald, Orange, Purple, Blue, Rose]

  lemma PromptToneSpelling(i: nat)
    requires i < |GeminiService.PromptTones|
    ensures forall j :: 0 <= j < |GeminiService.PromptTones[i]| ==> GeminiService.PromptTones[i][j] in PromptToneLetters(i)
    ensures PromptToneBadges[i] != Blue ==>
              Text.Includes(Text.Lower(GeminiService.PromptTones[i]), Keywords(PromptToneBadges[i])[0])
  {
    var t := Text.Lower(GeminiService.PromptTones[i]);
    if i != 3 {
      assert Text.StartsWith(t, Keywords(PromptToneBadges[i])[0]);
    }
  }

  /** The five tones the prompt asks for, in its order, get the emerald,
      orange, purple, blue and rose badges: five different badges. */
  lemma PromptToneBadge(i: nat)
    requires i < |GeminiService.PromptTones|
    ensures ToneStyleOf(GeminiService.PromptTones[i]) == PromptToneBadges[i]
  {
    PromptToneSpelling(i);
    var marks :=
      if i == 0 then []
      else if i == 1 then ['d', 'a']
      else if i == 2 then ['d', 'a', 'p', 'p']
      else if i == 3 then ['d', 'e', 'b', 'n', 'y', 'e', 'm']
      else ['d', 'a', 'p', 'p', 's'];
    BadgeBySpelling(GeminiService.PromptTones[i], PromptToneLetters(i), PromptToneBadges[i], marks);
  }

  lemma UrgencyStorySpelling(tone: string)
    requires tone == "urgency story"
    ensures forall j :: 0 <= j < |tone| ==> tone[j] in {'u', 'r', 'g', 'e', 'n', 'c', 'y', ' ', 's', 't', 'o'}
    ensures Text.Includes(Text.Lower(tone), "story")
  {
    var t := Text.Lower(tone);
    assert Text.StartsWith(t[8..], "story");
    Text.IncludesExtend(t[..8], t[8..], [], "story");
    assert t[..8] + t[8..] + [] == t;
  }

  /** Story is checked before urgency: a tone naming both gets the story badge. */
  lemma StoryBeforeUrgency(tone: string)
    requires tone == "urgency story"
    ensures ToneStyleOf(tone) == Purple
  {
    UrgencyStorySpelling(tone);
    BadgeBySpelling(tone, {'u', 'r', 'g', 'e', 'n', 'c', 'y', ' ', 's', 't', 'o'}, Purple, ['d', 'a', 'p', 'p']);
  }

  /** The two views of the primary text. */
  datatype PrimaryTextMode = ParagraphMode | BulletsMode

  /** A card opens on the paragraph view. */
  const InitialMode: PrimaryTextMode := ParagraphMode

  /** `currentPrimaryText`: the text the card shows and its copy button copies. */
  function CurrentPrimaryText(ad: AdCopy, mode: PrimaryTextMode): (text: string)
    ensures mode == ParagraphMode ==> text == ad.primaryTextParagraph
    ensures mode != ParagraphMode ==> text == ad.primaryTextBullets
  {
    if mode == ParagraphMode then ad.primaryTextParagraph else ad.primaryTextBullets
  }

  /** The view after a sequence of clicks on the two view buttons: each
      button sets its own view, it does not toggle. */
  function ModeAfter(clicks: seq<PrimaryTextMode>): PrimaryTextMode
  {
    if clicks == [] then InitialMode else clicks[|clicks| - 1]
  }

  /** Until the bullets button is clicked, a card shows and copies the
      paragraph form; after any clicks it shows the form last asked for. */
  lemma {:induction false} ShowsParagraphUntilBulletsClicked(ad: AdCopy, clicks: seq<PrimaryTextMode>)
    ensures BulletsMode !in clicks ==> CurrentPrimaryText(ad, ModeAfter(clicks)) == ad.primaryTextParagraph
    ensures clicks != [] && clicks[|clicks| - 1] == BulletsMode ==>
              CurrentPrimaryText(ad, ModeAfter(clicks)) == ad.primaryTextBullets
  {
    if clicks != [] {
      assert clicks[|clicks| - 1] in clicks;
    }
  }
}
