/**
 * The chapter renderer of main.py (`format_chapter_text`).
 *
 * The chapter's HTML is given already parsed: a sequence of blocks, each a
 * tag with its class list and its child nodes. A child is either a text node
 * or an element with its class list, its text (`element.text`) and its inner
 * markup (`element.decode_contents()`).
 */
module Render {
  import opened Wrappers
  import opened Text

  /** The five sidebar checkboxes. */
  datatype Settings = Settings(
    colorJesusWords: bool,
    showClarifications: bool,
    boldVerseNumbers: bool,
    capitalizeDivineNames: bool,
    showOriginalDivineNames: bool)

  datatype Node =
    | TextNode(text: string)
    | Element(classes: seq<string>, text: string, inner: string)

  datatype Block = Block(tag: string, classes: seq<string>, children: seq<Node>)

  /** `soup.find_all('p', class_='p')` selects the `p` tags whose class list holds `p`. */
  predicate IsParagraph(b: Block)
  {
    b.tag == "p" && "p" in b.classes
  }

  /** The verse in force: `None` before the first verse number. */
  type Verse = Option<string>

  /** The clarification index: verse to the added words found under it. */
  type Clarifications = map<Verse, seq<string>>

  /** What the renderer shows: the warning for missing content, or the markdown text. */
  datatype Rendered = Warning(message: string) | Markdown(text: string)

  const MissingContent := "Content for the selected chapter is not available."

  /** The classes the renderer recognises, and the pass-through case for all others. */
  datatype Kind = VerseNumber | JesusWords | Added | DivineName | PassThrough

  function ClassName(k: Kind): string
  {
    match k
    case VerseNumber => "v"
    case JesusWords => "wj"
    case Added => "add"
    case DivineName => "nd"
    case PassThrough => ""
  }

  /** Position in the dispatch order, highest priority first. */
  function Rank(k: Kind): nat
  {
    match k
    case VerseNumber => 0
    case JesusWords => 1
    case Added => 2
    case DivineName => 3
    case PassThrough => 4
  }

  /** The dispatch of an element on its classes: the first of `v`, `wj`, `add`, `nd` it carries. */
  function Classify(classes: seq<string>): (k: Kind)
    ensures k != PassThrough ==> ClassName(k) in classes
    ensures forall j: Kind :: Rank(j) < Rank(k) ==> ClassName(j) !in classes
  {
    if "v" in classes then VerseNumber
    else if "wj" in classes then JesusWords
    else if "add" in classes then Added
    else if "nd" in classes then DivineName
    else PassThrough
  }

  /** Output with two holes, for the verse-number weight and the Jesus-words colour. */
  datatype Piece = Lit(s: string) | WeightHole | ColourHole

  function Weight(bold: bool): string
  {
    if bold then "bold" else "normal"
  }

  function Colour(red: bool): string
  {
    if red then "red" else "white"
  }

  function PieceText(p: Piece, weight: string, colour: string): string
  {
    match p
    case Lit(t) => t
    case WeightHole => weight
    case ColourHole => colour
  }

  function Fill(ps: seq<Piece>, weight: string, colour: string): string
  {
    if |ps| == 0 then "" else PieceText(ps[0], weight, colour) + Fill(ps[1..], weight, colour)
  }

  lemma FillOne(p: Piece, weight: string, colour: string)
    ensures Fill([p], weight, colour) == PieceText(p, weight, colour)
  {
    assert [p][1..] == [];
  }

  lemma FillThree(p: Piece, q: Piece, r: Piece, weight: string, colour: string)
    ensures Fill([p, q, r], weight, colour)
         == PieceText(p, weight, colour) + PieceText(q, weight, colour) + PieceText(r, weight, colour)
  {
    assert [p, q, r][1..] == [q, r];
    assert [q, r][1..] == [r];
    FillOne(r, weight, colour);
  }

  /** `f"{current_verse}"`: Python prints a missing verse as `None`. */
  function VerseLabel(verse: Verse): string
  {
    match verse
    case None => "None"
    case Some(t) => t
  }

  /** The text of a divine name: upper-cased if asked, then followed by the gloss if asked. */
  function DivineNameText(text: string, s: Settings): string
  {
    (if s.capitalizeDivineNames then Upper(text) else text)
    + (if s.showOriginalDivineNames then " (YHWH)" else "")
  }

  /** Capitalising changes only letter case, with ASCII case mapping, and the gloss comes after the name. */
  lemma DivineNameCaseOnly(t: string, s: Settings)
    ensures Lower(DivineNameText(t, s)) == Lower(t) + (if s.showOriginalDivineNames then " (yhwh)" else "")
    ensures !s.capitalizeDivineNames ==> t <= DivineNameText(t, s)
    ensures |DivineNameText(t, s)| == |t| + (if s.showOriginalDivineNames then 7 else 0)
    ensures s.capitalizeDivineNames ==> forall i :: 0 <= i < |t| ==> !('a' <= DivineNameText(t, s)[i] <= 'z')
    ensures s.showOriginalDivineNames ==> DivineNameText(t, s)[|DivineNameText(t, s)| - 7..] == " (YHWH)"
  {
  }

  /** The output of one child, with the verse-number weight and the Jesus-words colour left as holes. */
  function Pieces(n: Node, verse: Verse, s: Settings): (ps: seq<Piece>)
    ensures WeightHole in ps ==> n.Element? && Classify(n.classes) == VerseNumber
    ensures ColourHole in ps ==> n.Element? && Classify(n.classes) == JesusWords
  {
    match n
    case TextNode(t) => [Lit(t)]
    case Element(classes, t, inner) =>
      match Classify(classes)
      case VerseNumber => [Lit("<sub style=\"font-weight: "), WeightHole, Lit("\">[" + t + "]</sub>")]
      case JesusWords => [Lit("<span style=\"color: "), ColourHole, Lit("\">" + t + "</span>")]
      case Added => [Lit("<span id=\"" + VerseLabel(verse) + "_add\" style=\"font-style: italic;\">" + t + "</span>")]
      case DivineName => [Lit("<span>" + DivineNameText(t, s) + "</span>")]
      case PassThrough => [Lit(inner)]
  }

  /** The output of one child: the rule table of the renderer. */
  function Emit(n: Node, verse: Verse, s: Settings): string
  {
    match n
    case TextNode(t) => t
    case Element(classes, t, inner) =>
      match Classify(classes)
      case VerseNumber => "<sub style=\"font-weight: " + Weight(s.boldVerseNumbers) + ("\">[" + t + "]</sub>")
      case JesusWords => "<span style=\"color: " + Colour(s.colorJesusWords) + ("\">" + t + "</span>")
      case Added => "<span id=\"" + VerseLabel(verse) + "_add\" style=\"font-style: italic;\">" + t + "</span>"
      case DivineName => "<span>" + DivineNameText(t, s) + "</span>"
      case PassThrough => inner
  }

  /** Text nodes are copied verbatim; an element of no recognised class contributes its inner contents unchanged. */
  lemma VerbatimChildren(n: Node, verse: Verse, s: Settings)
    ensures n.TextNode? ==> Emit(n, verse, s) == n.text
    ensures n.Element? && (forall k: Kind :: k != PassThrough ==> ClassName(k) !in n.classes) ==> Emit(n, verse, s) == n.inner
  {
  }

  /** Each child's output is its pieces with the weight and colour words filled in. */
  lemma EmitFillsPieces(n: Node, verse: Verse, s: Settings)
    ensures Emit(n, verse, s) == Fill(Pieces(n, verse, s), Weight(s.boldVerseNumbers), Colour(s.colorJesusWords))
  {
    var w, c := Weight(s.boldVerseNumbers), Colour(s.colorJesusWords);
    match n
    case TextNode(t) =>
      FillOne(Lit(t), w, c);
    case Element(classes, t, inner) =>
      match Classify(classes)
      case VerseNumber =>
        FillThree(Lit("<sub style=\"font-weight: "), WeightHole, Lit("\">[" + t + "]</sub>"), w, c);
      case JesusWords =>
        FillThree(Lit("<span style=\"color: "), ColourHole, Lit("\">" + t + "</span>"), w, c);
      case Added =>
        FillOne(Lit("<span id=\"" + VerseLabel(verse) + "_add\" style=\"font-style: italic;\">" + t + "</span>"), w, c);
      case DivineName =>
        FillOne(Lit("<span>" + DivineNameText(t, s) + "</span>"), w, c);
      case PassThrough =>
        FillOne(Lit(inner), w, c);
  }

  /** The verse in force after a child: a verse number sets it to its text. */
  function NextVerse(n: Node, verse: Verse): Verse
  {
    if n.Element? && Classify(n.classes) == VerseNumber then Some(n.text) else verse
  }

  /** The added word a child contributes, with the verse in force before it. */
  function NodeAdds(n: Node, verse: Verse): seq<(Verse, string)>
  {
    if n.Element? && Classify(n.classes) == Added then [(verse, n.text)] else []
  }

  /** A paragraph's children rendered in order, each under the verse left by those before it. */
  function RenderRun(ns: seq<Node>, verse: Verse, s: Settings): string
  {
    if |ns| == 0 then "" else Emit(ns[0], verse, s) + RenderRun(ns[1..], NextVerse(ns[0], verse), s)
  }

  function VerseAfter(ns: seq<Node>, verse: Verse): Verse
  {
    if |ns| == 0 then verse else VerseAfter(ns[1..], NextVerse(ns[0], verse))
  }

  /** The added words of a run, in document order, each with the verse it falls under. */
  function AddsIn(ns: seq<Node>, verse: Verse): seq<(Verse, string)>
  {
    if |ns| == 0 then [] else NodeAdds(ns[0], verse) + AddsIn(ns[1..], NextVerse(ns[0], verse))
  }

  function RunPieces(ns: seq<Node>, verse: Verse, s: Settings): seq<Piece>
  {
    if |ns| == 0 then [] else Pieces(ns[0], verse, s) + RunPieces(ns[1..], NextVerse(ns[0], verse), s)
  }

  /** The chapter text: for each paragraph, a blank line and then its children. */
  function RenderBlocks(bs: seq<Block>, verse: Verse, s: Settings): string
  {
    if |bs| == 0 then ""
    else if IsParagraph(bs[0]) then
      "\n \n" + RenderRun(bs[0].children, verse, s) + RenderBlocks(bs[1..], VerseAfter(bs[0].children, verse), s)
    else RenderBlocks(bs[1..], verse, s)
  }

  function VerseAfterBlocks(bs: seq<Block>, verse: Verse): Verse
  {
    if |bs| == 0 then verse
    else if IsParagraph(bs[0]) then VerseAfterBlocks(bs[1..], VerseAfter(bs[0].children, verse))
    else VerseAfterBlocks(bs[1..], verse)
  }

  function AddsInBlocks(bs: seq<Block>, verse: Verse): seq<(Verse, string)>
  {
    if |bs| == 0 then []
    else if IsParagraph(bs[0]) then AddsIn(bs[0].children, verse) + AddsInBlocks(bs[1..], VerseAfter(bs[0].children, verse))
    else AddsInBlocks(bs[1..], verse)
  }

  function BlockPieces(bs: seq<Block>, verse: Verse, s: Settings): seq<Piece>
  {
    if |bs| == 0 then []
    else if IsParagraph(bs[0]) then
      [Lit("\n \n")] + RunPieces(bs[0].children, verse, s) + BlockPieces(bs[1..], VerseAfter(bs[0].children, verse), s)
    else BlockPieces(bs[1..], verse, s)
  }

  /** The added words recorded under verse `k`, in document order. */
  function Group(adds: seq<(Verse, string)>, k: Verse): seq<string>
  {
    if |adds| == 0 then [] else (if adds[0].0 == k then [adds[0].1] else []) + Group(adds[1..], k)
  }

  /** `clar` holds a key exactly for the verses with added words, and under it those words in order. */
  ghost predicate Collects(clar: Clarifications, adds: seq<(Verse, string)>)
  {
    forall k :: (k in clar <==> Group(adds, k) != []) && (k in clar ==> clar[k] == Group(adds, k))
  }

  // ---- Steps of the renderer's loops: each spec function extended by one more child or block.

  lemma {:induction false} GroupSnoc(adds: seq<(Verse, string)>, a: (Verse, string), k: Verse)
    ensures Group(adds + [a], k) == Group(adds, k) + (if a.0 == k then [a.1] else [])
  {
    if |adds| == 0 {
      assert adds + [a] == [a];
    } else {
      assert (adds + [a])[1..] == adds[1..] + [a];
      GroupSnoc(adds[1..], a, k);
    }
  }

  lemma {:induction false} VerseAfterSnoc(ns: seq<Node>, n: Node, verse: Verse)
    ensures VerseAfter(ns + [n], verse) == NextVerse(n, VerseAfter(ns, verse))
  {
    if |ns| == 0 {
      assert ns + [n] == [n];
      assert [n][1..] == [];
    } else {
      assert (ns + [n])[1..] == ns[1..] + [n];
      VerseAfterSnoc(ns[1..], n, NextVerse(ns[0], verse));
    }
  }

  lemma {:induction false} RenderRunSnoc(ns: seq<Node>, n: Node, verse: Verse, s: Settings)
    ensures RenderRun(ns + [n], verse, s) == RenderRun(ns, verse, s) + Emit(n, VerseAfter(ns, verse), s)
  {
    if |ns| == 0 {
      assert ns + [n] == [n];
      assert [n][1..] == [];
    } else {
      assert (ns + [n])[1..] == ns[1..] + [n];
      RenderRunSnoc(ns[1..], n, NextVerse(ns[0], verse), s);
    }
  }

  lemma {:induction false} AddsInSnoc(ns: seq<Node>, n: Node, verse: Verse)
    ensures AddsIn(ns + [n], verse) == AddsIn(ns, verse) + NodeAdds(n, VerseAfter(ns, verse))
  {
    if |ns| == 0 {
      assert ns + [n] == [n];
      assert [n][1..] == [];
    } else {
      assert (ns + [n])[1..] == ns[1..] + [n];
      AddsInSnoc(ns[1..], n, NextVerse(ns[0], verse));
    }
  }

  lemma {:induction false} RenderBlocksSnoc(bs: seq<Block>, b: Block, verse: Verse, s: Settings)
    ensures RenderBlocks(bs + [b], verse, s)
         == RenderBlocks(bs, verse, s)
            + (if IsParagraph(b) then "\n \n" + RenderRun(b.children, VerseAfterBlocks(bs, verse), s) else "")
  {
    if |bs| == 0 {
      assert bs + [b] == [b];
      assert [b][1..] == [];
    } else {
      assert (bs + [b])[1..] == bs[1..] + [b];
      RenderBlocksSnoc(bs[1..], b, if IsParagraph(bs[0]) then VerseAfter(bs[0].children, verse) else verse, s);
    }
  }

  lemma {:induction false} VerseAfterBlocksSnoc(bs: seq<Block>, b: Block, verse: Verse)
    ensures VerseAfterBlocks(bs + [b], verse)
         == if IsParagraph(b) then VerseAfter(b.children, VerseAfterBlocks(bs, verse)) else VerseAfterBlocks(bs, verse)
  {
    if |bs| == 0 {
      assert bs + [b] == [b];
      assert [b][1..] == [];
    } else {
      assert (bs + [b])[1..] == bs[1..] + [b];
      VerseAfterBlocksSnoc(bs[1..], b, if IsParagraph(bs[0]) then VerseAfter(bs[0].children, verse) else verse);
    }
  }

  lemma {:induction false} AddsInBlocksSnoc(bs: seq<Block>, b: Block, verse: Verse)
    ensures AddsInBlocks(bs + [b], verse)
         == AddsInBlocks(bs, verse) + (if IsParagraph(b) then AddsIn(b.children, VerseAfterBlocks(bs, verse)) else [])
  {
    if |bs| == 0 {
      assert bs + [b] == [b];
      assert [b][1..] == [];
    } else {
      assert (bs + [b])[1..] == bs[1..] + [b];
      AddsInBlocksSnoc(bs[1..], b, if IsParagraph(bs[0]) then VerseAfter(bs[0].children, verse) else verse);
    }
  }

  // ---- The settings toggles.

  lemma {:induction false} FillConcat(a: seq<Piece>, b: seq<Piece>, w: string, c: string)
    ensures Fill(a + b, w, c) == Fill(a, w, c) + Fill(b, w, c)
  {
    if |a| == 0 {
      assert a + b == b;
    } else {
      assert (a + b)[1..] == a[1..] + b;
      FillConcat(a[1..], b, w, c);
    }
  }

  lemma {:induction false} RunPiecesFill(ns: seq<Node>, verse: Verse, s: Settings)
    ensures RenderRun(ns, verse, s) == Fill(RunPieces(ns, verse, s), Weight(s.boldVerseNumbers), Colour(s.colorJesusWords))
  {
    if |ns| > 0 {
      RunPiecesFill(ns[1..], NextVerse(ns[0], verse), s);
      EmitFillsPieces(ns[0], verse, s);
      FillConcat(Pieces(ns[0], verse, s), RunPieces(ns[1..], NextVerse(ns[0], verse), s),
                 Weight(s.boldVerseNumbers), Colour(s.colorJesusWords));
    }
  }

  /** The chapter text is its pieces with the weight and colour words filled in. */
  lemma {:induction false} BlockPiecesFill(bs: seq<Block>, verse: Verse, s: Settings)
    ensures RenderBlocks(bs, verse, s) == Fill(BlockPieces(bs, verse, s), Weight(s.boldVerseNumbers), Colour(s.colorJesusWords))
  {
    if |bs| > 0 {
      var w, c := Weight(s.boldVerseNumbers), Colour(s.colorJesusWords);
      if IsParagraph(bs[0]) {
        var v := VerseAfter(bs[0].children, verse);
        BlockPiecesFill(bs[1..], v, s);
        RunPiecesFill(bs[0].children, verse, s);
        FillConcat([Lit("\n \n")] + RunPieces(bs[0].children, verse, s), BlockPieces(bs[1..], v, s), w, c);
        FillConcat([Lit("\n \n")], RunPieces(bs[0].children, verse, s), w, c);
      } else {
        BlockPiecesFill(bs[1..], verse, s);
      }
    }
  }

  lemma {:induction false} RunPiecesIgnoreToggles(ns: seq<Node>, verse: Verse, s: Settings, bold: bool, red: bool)
    ensures RunPieces(ns, verse, s.(boldVerseNumbers := bold, colorJesusWords := red)) == RunPieces(ns, verse, s)
  {
    if |ns| > 0 {
      RunPiecesIgnoreToggles(ns[1..], NextVerse(ns[0], verse), s, bold, red);
    }
  }

  /** The pieces do not depend on the weight and colour toggles. */
  lemma {:induction false} BlockPiecesIgnoreToggles(bs: seq<Block>, verse: Verse, s: Settings, bold: bool, red: bool)
    ensures BlockPieces(bs, verse, s.(boldVerseNumbers := bold, colorJesusWords := red)) == BlockPieces(bs, verse, s)
  {
    if |bs| > 0 {
      if IsParagraph(bs[0]) {
        RunPiecesIgnoreToggles(bs[0].children, verse, s, bold, red);
        BlockPiecesIgnoreToggles(bs[1..], VerseAfter(bs[0].children, verse), s, bold, red);
      } else {
        BlockPiecesIgnoreToggles(bs[1..], verse, s, bold, red);
      }
    }
  }

  /**
   * Toggling `bold_verse_numbers` or `color_jesus_words` changes only the
   * words put in the holes: both renderings are the same pieces, filled in
   * with the toggled weight and colour. The weight hole stands only inside a
   * verse number and the colour hole only inside Jesus' words (Pieces).
   */
  lemma TogglesChangeOnlyTheirWord(bs: seq<Block>, verse: Verse, s: Settings, bold: bool, red: bool)
    ensures var ps := BlockPieces(bs, verse, s);
      && RenderBlocks(bs, verse, s) == Fill(ps, Weight(s.boldVerseNumbers), Colour(s.colorJesusWords))
      && RenderBlocks(bs, verse, s.(boldVerseNumbers := bold, colorJesusWords := red)) == Fill(ps, Weight(bold), Colour(red))
  {
    var s' := s.(boldVerseNumbers := bold, colorJesusWords := red);
    BlockPiecesFill(bs, verse, s);
    BlockPiecesFill(bs, verse, s');
    BlockPiecesIgnoreToggles(bs, verse, s, bold, red);
  }

  /** Only the two display toggles of divine names and the weight/colour words matter; the clarification checkbox does not. */
  lemma {:induction false} ShowClarificationsIrrelevant(bs: seq<Block>, verse: Verse, s: Settings, show: bool)
    ensures RenderBlocks(bs, verse, s.(showClarifications := show)) == RenderBlocks(bs, verse, s)
  {
    if |bs| > 0 {
      var s' := s.(showClarifications := show);
      if IsParagraph(bs[0]) {
        RunPiecesFill(bs[0].children, verse, s);
        RunPiecesFill(bs[0].children, verse, s');
        RunPiecesIgnoreShow(bs[0].children, verse, s, show);
        ShowClarificationsIrrelevant(bs[1..], VerseAfter(bs[0].children, verse), s, show);
      } else {
        ShowClarificationsIrrelevant(bs[1..], verse, s, show);
      }
    }
  }

  lemma {:induction false} RunPiecesIgnoreShow(ns: seq<Node>, verse: Verse, s: Settings, show: bool)
    ensures RunPieces(ns, verse, s.(showClarifications := show)) == RunPieces(ns, verse, s)
  {
    if |ns| > 0 {
      RunPiecesIgnoreShow(ns[1..], NextVerse(ns[0], verse), s, show);
    }
  }

  /** Blocks other than `p` paragraphs add nothing. */
  lemma {:induction false} NonParagraphsIgnored(bs: seq<Block>, verse: Verse, s: Settings)
    requires forall i :: 0 <= i < |bs| ==> !IsParagraph(bs[i])
    ensures RenderBlocks(bs, verse, s) == ""
    ensures AddsInBlocks(bs, verse) == []
    ensures VerseAfterBlocks(bs, verse) == verse
  {
    if |bs| > 0 {
      assert !IsParagraph(bs[0]);
      NonParagraphsIgnored(bs[1..], verse, s);
    }
  }

  /** No child of the run is a verse number. */
  predicate NoVerseNumber(ns: seq<Node>)
  {
    forall i :: 0 <= i < |ns| ==> !(ns[i].Element? && Classify(ns[i].classes) == VerseNumber)
  }

  /** No paragraph among the blocks holds a verse number. */
  predicate NoVerseNumberBlocks(bs: seq<Block>)
  {
    forall i :: 0 <= i < |bs| ==> IsParagraph(bs[i]) ==> NoVerseNumber(bs[i].children)
  }

  /** Every recorded word falls under `None`. */
  predicate UnderNone(adds: seq<(Verse, string)>)
  {
    forall i :: 0 <= i < |adds| ==> adds[i].0 == None
  }

  /** Added words before any verse number are recorded under `None`. */
  lemma {:induction false} AddsBeforeFirstVerse(ns: seq<Node>)
    requires NoVerseNumber(ns)
    ensures UnderNone(AddsIn(ns, None))
    ensures VerseAfter(ns, None) == None
  {
    if |ns| > 0 {
      assert NextVerse(ns[0], None) == None;
      assert NoVerseNumber(ns[1..]) by {
        forall i | 0 <= i < |ns| - 1 ensures !(ns[1..][i].Element? && Classify(ns[1..][i].classes) == VerseNumber) {
          assert ns[1..][i] == ns[i + 1];
        }
      }
      AddsBeforeFirstVerse(ns[1..]);
    }
  }

  /** A run split in two leaves the verse the second part leaves, starting from the first part's. */
  lemma {:induction false} VerseAfterConcat(a: seq<Node>, b: seq<Node>, verse: Verse)
    ensures VerseAfter(a + b, verse) == VerseAfter(b, VerseAfter(a, verse))
  {
    if |a| == 0 {
      assert a + b == b;
    } else {
      assert (a + b)[0] == a[0];
      assert (a + b)[1..] == a[1..] + b;
      VerseAfterConcat(a[1..], b, NextVerse(a[0], verse));
    }
  }

  /** A run split in two: the second part starts under the verse the first part leaves. */
  lemma {:induction false} AddsInConcat(a: seq<Node>, b: seq<Node>, verse: Verse)
    ensures AddsIn(a + b, verse) == AddsIn(a, verse) + AddsIn(b, VerseAfter(a, verse))
  {
    if |a| == 0 {
      assert a + b == b;
    } else {
      var v := NextVerse(a[0], verse);
      assert (a + b)[0] == a[0];
      assert (a + b)[1..] == a[1..] + b;
      AddsInConcat(a[1..], b, v);
      var head, mid, last := NodeAdds(a[0], verse), AddsIn(a[1..], v), AddsIn(b, VerseAfter(a[1..], v));
      assert AddsIn(a + b, verse) == head + (mid + last);
      assert head + (mid + last) == (head + mid) + last;
    }
  }

  /** A chapter split in two leaves the verse the second part leaves, starting from the first part's. */
  lemma {:induction false} VerseAfterBlocksConcat(a: seq<Block>, b: seq<Block>, verse: Verse)
    ensures VerseAfterBlocks(a + b, verse) == VerseAfterBlocks(b, VerseAfterBlocks(a, verse))
  {
    if |a| == 0 {
      assert a + b == b;
    } else {
      assert (a + b)[0] == a[0];
      assert (a + b)[1..] == a[1..] + b;
      VerseAfterBlocksConcat(a[1..], b, if IsParagraph(a[0]) then VerseAfter(a[0].children, verse) else verse);
    }
  }

  /** A chapter split in two: the second part starts under the verse the first part leaves. */
  lemma {:induction false} AddsInBlocksConcat(a: seq<Block>, b: seq<Block>, verse: Verse)
    ensures AddsInBlocks(a + b, verse) == AddsInBlocks(a, verse) + AddsInBlocks(b, VerseAfterBlocks(a, verse))
  {
    if |a| == 0 {
      assert a + b == b;
    } else {
      var v := if IsParagraph(a[0]) then VerseAfter(a[0].children, verse) else verse;
      assert (a + b)[0] == a[0];
      assert (a + b)[1..] == a[1..] + b;
      AddsInBlocksConcat(a[1..], b, v);
      var head := if IsParagraph(a[0]) then AddsIn(a[0].children, verse) else [];
      var mid, last := AddsInBlocks(a[1..], v), AddsInBlocks(b, VerseAfterBlocks(a[1..], v));
      assert AddsInBlocks(a + b, verse) == head + (mid + last);
      assert head + (mid + last) == (head + mid) + last;
    }
  }

  /** Paragraphs without verse numbers leave the verse at `None` and record their added words under it. */
  lemma {:induction false} AddsBeforeFirstVerseBlocks(bs: seq<Block>)
    requires NoVerseNumberBlocks(bs)
    ensures UnderNone(AddsInBlocks(bs, None))
    ensures VerseAfterBlocks(bs, None) == None
  {
    if |bs| > 0 {
      assert NoVerseNumberBlocks(bs[1..]) by {
        forall i | 0 <= i < |bs| - 1 && IsParagraph(bs[1..][i]) ensures NoVerseNumber(bs[1..][i].children) {
          assert bs[1..][i] == bs[i + 1];
        }
      }
      AddsBeforeFirstVerseBlocks(bs[1..]);
      if IsParagraph(bs[0]) {
        AddsBeforeFirstVerse(bs[0].children);
      }
    }
  }

  lemma UnderNoneConcat(a: seq<(Verse, string)>, b: seq<(Verse, string)>)
    requires UnderNone(a) && UnderNone(b)
    ensures UnderNone(a + b)
  {
    forall i | 0 <= i < |a + b| ensures (a + b)[i].0 == None {
      if i >= |a| { assert (a + b)[i] == b[i - |a|]; }
    }
  }

  /** A paragraph at the head of the blocks renders its run under the verse it is given. */
  lemma AddsInBlocksParagraph(p: Block, rest: seq<Block>, verse: Verse)
    requires IsParagraph(p)
    ensures AddsInBlocks([p] + rest, verse) == AddsIn(p.children, verse) + AddsInBlocks(rest, VerseAfter(p.children, verse))
  {
    assert ([p] + rest)[0] == p && ([p] + rest)[1..] == rest;
  }

  /**
   * The chapter up to its first verse number: the paragraphs `a` before it and the
   * children `pre` before it in its own paragraph `p`. Their added words come first
   * and all fall under `None`; the rest is recorded from `p`'s remaining children on.
   */
  lemma {:induction false} AddsBeforeFirstVerseInChapter(a: seq<Block>, p: Block, pre: seq<Node>, post: seq<Node>, rest: seq<Block>)
    requires NoVerseNumberBlocks(a) && IsParagraph(p) && p.children == pre + post && NoVerseNumber(pre)
    ensures UnderNone(AddsInBlocks(a, None) + AddsIn(pre, None))
    ensures AddsInBlocks(a + [p] + rest, None)
         == AddsInBlocks(a, None) + (AddsIn(pre, None) + AddsIn(post, None) + AddsInBlocks(rest, VerseAfter(post, None)))
  {
    assert UnderNone(AddsInBlocks(a, None) + AddsIn(pre, None))
        && VerseAfterBlocks(a, None) == None && VerseAfter(pre, None) == None by {
      AddsBeforeFirstVerseBlocks(a);
      AddsBeforeFirstVerse(pre);
      UnderNoneConcat(AddsInBlocks(a, None), AddsIn(pre, None));
    }
    AddsInParagraphAfter(a, p, pre, post, rest);
  }

  /** The equation behind `AddsBeforeFirstVerseInChapter`, once the verse is still `None` after `a` and `pre`. */
  lemma AddsInParagraphAfter(a: seq<Block>, p: Block, pre: seq<Node>, post: seq<Node>, rest: seq<Block>)
    requires IsParagraph(p) && p.children == pre + post
    requires VerseAfterBlocks(a, None) == None && VerseAfter(pre, None) == None
    ensures AddsInBlocks(a + [p] + rest, None)
         == AddsInBlocks(a, None) + (AddsIn(pre, None) + AddsIn(post, None) + AddsInBlocks(rest, VerseAfter(post, None)))
  {
    var tail := [p] + rest;
    var early, inPre, inPost := AddsInBlocks(a, None), AddsIn(pre, None), AddsIn(post, None);
    var later := AddsInBlocks(rest, VerseAfter(post, None));
    assert AddsIn(p.children, None) == inPre + inPost && VerseAfter(p.children, None) == VerseAfter(post, None) by {
      AddsInConcat(pre, post, None);
      VerseAfterConcat(pre, post, None);
    }
    assert AddsInBlocks(tail, None) == (inPre + inPost) + later by {
      AddsInBlocksParagraph(p, rest, None);
    }
    assert AddsInBlocks(a + [p] + rest, None) == early + AddsInBlocks(tail, None) by {
      assert a + [p] + rest == a + tail;
      AddsInBlocksConcat(a, tail, None);
    }
  }

  /** The page's renderer, holding the module-level clarification index it fills as a side channel. */
  class ChapterView {
    var clarificationWords: Clarifications

    constructor ()
      ensures clarificationWords == map[]
    {
      clarificationWords := map[];
    }

    /**
     * `format_chapter_text`: the index is reset on every call; missing
     * content gives only the warning; otherwise the markdown is the chapter
     * text and the index holds, per verse, the added words under it.
     * `None` stands for every falsy `chapter_html` (both `None` and an
     * empty string); `Some([])` is parsed content without blocks and
     * gives `Markdown("")`.
     */
    method FormatChapterText(chapterHtml: Option<seq<Block>>, s: Settings) returns (out: Rendered)
      modifies this
      ensures chapterHtml.None? ==> out == Warning(MissingContent) && clarificationWords == map[]
      ensures chapterHtml.Some? ==> out == Markdown(RenderBlocks(chapterHtml.value, None, s))
      ensures chapterHtml.Some? ==> Collects(clarificationWords, AddsInBlocks(chapterHtml.value, None))
    {
      clarificationWords := map[];
      var currentVerse: Verse := None;
      if chapterHtml.None? {
        return Warning(MissingContent);
      }
      var blocks := chapterHtml.value;
      var formatted := "";
      ghost var adds: seq<(Verse, string)> := [];
      var i := 0;
      while i < |blocks|
        invariant 0 <= i <= |blocks|
        invariant formatted == RenderBlocks(blocks[..i], None, s)
        invariant currentVerse == VerseAfterBlocks(blocks[..i], None)
        invariant adds == AddsInBlocks(blocks[..i], None)
        invariant Collects(clarificationWords, adds)
      {
        var b := blocks[i];
        BlockStep(blocks, i, s);
        if IsParagraph(b) {
          formatted := formatted + "\n \n";
          formatted, currentVerse, adds := AppendChildren(b.children, s, formatted, currentVerse, adds);
        }
        i := i + 1;
      }
      assert blocks[..|blocks|] == blocks;
      out := Markdown(formatted);
    }

    /** The inner loop of `format_chapter_text`: one paragraph's children appended to the text. */
    method AppendChildren(children: seq<Node>, s: Settings, text0: string, verse0: Verse, ghost adds0: seq<(Verse, string)>)
      returns (formatted: string, currentVerse: Verse, ghost adds: seq<(Verse, string)>)
      requires Collects(clarificationWords, adds0)
      modifies this
      ensures formatted == text0 + RenderRun(children, verse0, s)
      ensures currentVerse == VerseAfter(children, verse0)
      ensures adds == adds0 + AddsIn(children, verse0)
      ensures Collects(clarificationWords, adds)
    {
      formatted, currentVerse, adds := text0, verse0, adds0;
      var j := 0;
      while j < |children|
        invariant 0 <= j <= |children|
        invariant formatted == text0 + RenderRun(children[..j], verse0, s)
        invariant currentVerse == VerseAfter(children[..j], verse0)
        invariant adds == adds0 + AddsIn(children[..j], verse0)
        invariant Collects(clarificationWords, adds)
      {
        ChildStep(children, j, verse0, s, text0, adds0);
        var piece;
        piece, currentVerse, adds := RenderChild(children[j], s, currentVerse, adds);
        formatted := formatted + piece;
        j := j + 1;
      }
      assert children[..|children|] == children;
    }

    /** One child of a paragraph: its output, the verse in force after it, and the index updated for an added word. */
    method RenderChild(n: Node, s: Settings, verse: Verse, ghost adds0: seq<(Verse, string)>)
      returns (piece: string, currentVerse: Verse, ghost adds: seq<(Verse, string)>)
      requires Collects(clarificationWords, adds0)
      modifies this
      ensures piece == Emit(n, verse, s)
      ensures currentVerse == NextVerse(n, verse)
      ensures adds == adds0 + NodeAdds(n, verse)
      ensures Collects(clarificationWords, adds)
    {
      currentVerse, adds := verse, adds0;
      match n {
        case TextNode(t) =>
          piece := t;
        case Element(classes, t, inner) =>
          if "v" in classes {
            currentVerse := Some(t);
            piece := "<sub style=\"font-weight: " + Weight(s.boldVerseNumbers) + ("\">[" + t + "]</sub>");
          } else if "wj" in classes {
            piece := "<span style=\"color: " + Colour(s.colorJesusWords) + ("\">" + t + "</span>");
          } else if "add" in classes {
            piece := "<span id=\"" + VerseLabel(currentVerse) + "_add\" style=\"font-style: italic;\">" + t + "</span>";
            adds := AddClarification(currentVerse, t, adds);
          } else if "nd" in classes {
            var text := if s.capitalizeDivineNames then Upper(t) else t;
            if s.showOriginalDivineNames {
              text := text + " (YHWH)";
            }
            piece := "<span>" + text + "</span>";
          } else {
            piece := inner;
          }
      }
    }

    /** `clarification_words.setdefault(verse, []).append(word)`. */
    method AddClarification(verse: Verse, word: string, ghost adds0: seq<(Verse, string)>) returns (ghost adds: seq<(Verse, string)>)
      requires Collects(clarificationWords, adds0)
      modifies this
      ensures adds == adds0 + [(verse, word)]
      ensures Collects(clarificationWords, adds)
      ensures clarificationWords == old(clarificationWords)[verse := old(if verse in clarificationWords then clarificationWords[verse] else []) + [word]]
    {
      RecordAdded(adds0, verse, word);
      var words := if verse in clarificationWords then clarificationWords[verse] else [];
      clarificationWords := clarificationWords[verse := words + [word]];
      adds := adds0 + [(verse, word)];
    }
  }

  /** One turn of the outer loop: the specifications extended by block `i`. */
  lemma BlockStep(blocks: seq<Block>, i: nat, s: Settings)
    requires i < |blocks|
    ensures RenderBlocks(blocks[..i + 1], None, s) == RenderBlocks(blocks[..i], None, s)
      + (if IsParagraph(blocks[i]) then "\n \n" + RenderRun(blocks[i].children, VerseAfterBlocks(blocks[..i], None), s) else "")
    ensures IsParagraph(blocks[i]) ==>
      (RenderBlocks(blocks[..i + 1], None, s)
       == RenderBlocks(blocks[..i], None, s) + "\n \n" + RenderRun(blocks[i].children, VerseAfterBlocks(blocks[..i], None), s))
    ensures VerseAfterBlocks(blocks[..i + 1], None)
      == if IsParagraph(blocks[i]) then VerseAfter(blocks[i].children, VerseAfterBlocks(blocks[..i], None)) else VerseAfterBlocks(blocks[..i], None)
    ensures AddsInBlocks(blocks[..i + 1], None) == AddsInBlocks(blocks[..i], None)
      + (if IsParagraph(blocks[i]) then AddsIn(blocks[i].children, VerseAfterBlocks(blocks[..i], None)) else [])
  {
    assert blocks[..i + 1] == blocks[..i] + [blocks[i]];
    RenderBlocksSnoc(blocks[..i], blocks[i], None, s);
    VerseAfterBlocksSnoc(blocks[..i], blocks[i], None);
    AddsInBlocksSnoc(blocks[..i], blocks[i], None);
    var r := RenderRun(blocks[i].children, VerseAfterBlocks(blocks[..i], None), s);
    assert RenderBlocks(blocks[..i], None, s) + "\n \n" + r == RenderBlocks(blocks[..i], None, s) + ("\n \n" + r);
  }

  /** One turn of the inner loop: the specifications extended by child `j`, after the text and words before the run. */
  lemma ChildStep(children: seq<Node>, j: nat, verse0: Verse, s: Settings, text0: string, adds0: seq<(Verse, string)>)
    requires j < |children|
    ensures text0 + RenderRun(children[..j + 1], verse0, s)
      == (text0 + RenderRun(children[..j], verse0, s)) + Emit(children[j], VerseAfter(children[..j], verse0), s)
    ensures VerseAfter(children[..j + 1], verse0) == NextVerse(children[j], VerseAfter(children[..j], verse0))
    ensures adds0 + AddsIn(children[..j + 1], verse0)
      == (adds0 + AddsIn(children[..j], verse0)) + NodeAdds(children[j], VerseAfter(children[..j], verse0))
  {
    assert children[..j + 1] == children[..j] + [children[j]];
    RenderRunSnoc(children[..j], children[j], verse0, s);
    VerseAfterSnoc(children[..j], children[j], verse0);
    AddsInSnoc(children[..j], children[j], verse0);
  }

  /** `clarification_words.setdefault(verse, []).append(word)` keeps the index in step with the added words. */
  lemma RecordAdded(adds: seq<(Verse, string)>, verse: Verse, word: string)
    ensures forall k :: Group(adds + [(verse, word)], k) == Group(adds, k) + (if verse == k then [word] else [])
  {
    forall k ensures Group(adds + [(verse, word)], k) == Group(adds, k) + (if verse == k then [word] else []) {
      GroupSnoc(adds, (verse, word), k);
    }
  }
}
