/** The help centre's list logic (src/components/Help.tsx): the FAQ search
    and category filter, and the category list offered to the user. */
module Help {

  import opened Rows

  datatype Faq = Faq(id: int, question: string, answer: string, category: string)

  predicate IsUpper(c: char) {
    'A' <= c <= 'Z'
  }

  predicate IsLower(c: char) {
    'a' <= c <= 'z'
  }

  /** `toLowerCase` on one character, for the ASCII letters. */
  function LowerChar(c: char): (l: char)
    ensures IsUpper(c) ==> IsLower(l) && l as int == c as int + 32
    ensures !IsUpper(c) ==> l == c
  {
    if IsUpper(c) then (c as int + 32) as char else c
  }

  /** `toUpperCase` on one character, for the ASCII letters. */
  function UpperChar(c: char): (u: char)
    ensures IsLower(c) ==> IsUpper(u) && u as int == c as int - 32
    ensures !IsLower(c) ==> u == c
  {
    if IsLower(c) then (c as int - 32) as char else c
  }

  function Lower(s: string): (r: string)
    ensures |r| == |s| && forall i :: 0 <= i < |s| ==> r[i] == LowerChar(s[i])
  {
    if s == [] then [] else [LowerChar(s[0])] + Lower(s[1..])
  }

  function Upper(s: string): (r: string)
    ensures |r| == |s| && forall i :: 0 <= i < |s| ==> r[i] == UpperChar(s[i])
  {
    if s == [] then [] else [UpperChar(s[0])] + Upper(s[1..])
  }

  /** Lower-casing ignores the case a string was written in. */
  lemma LowerIgnoresCase(s: string)
    ensures Lower(Upper(s)) == Lower(s)
    ensures Lower(Lower(s)) == Lower(s)
  {
  }

  /** `sub` occurs in `s` starting at position `i`. */
  predicate OccursAt(s: string, sub: string, i: int) {
    0 <= i <= |s| - |sub| && s[i..i + |sub|] == sub
  }

  /** `s.includes(sub)`, scanning the start positions in order. */
  function Includes(s: string, sub: string): (b: bool)
    ensures b <==> exists i :: OccursAt(s, sub, i)
    decreases |s|
  {
    if |sub| <= |s| && s[..|sub|] == sub then
      assert OccursAt(s, sub, 0);
      true
    else if s == [] then false
    else
      var b := Includes(s[1..], sub);
      assert b ==> exists i :: OccursAt(s, sub, i) by {
        if b {
          var i :| OccursAt(s[1..], sub, i);
          assert s[i + 1..i + 1 + |sub|] == s[1..][i..i + |sub|];
          assert OccursAt(s, sub, i + 1);
        }
      }
      assert (exists i :: OccursAt(s, sub, i)) ==> b by {
        if exists i :: OccursAt(s, sub, i) {
          var i :| OccursAt(s, sub, i);
          if i > 0 {
            assert s[1..][i - 1..i - 1 + |sub|] == s[i..i + |sub|];
            assert OccursAt(s[1..], sub, i - 1);
          }
        }
      }
      b
  }

  /** The search text matches the question or the answer, ignoring case,
      and the category is 'all' or the FAQ's own. */
  predicate Shown(faq: Faq, searchTerm: string, selectedCategory: string) {
    (Includes(Lower(faq.question), Lower(searchTerm)) || Includes(Lower(faq.answer), Lower(searchTerm))) &&
    (selectedCategory == "all" || faq.category == selectedCategory)
  }

  /** `filteredFaqs`: the FAQs shown, in their own order. */
  function FilterFaqs(faqs: seq<Faq>, searchTerm: string, selectedCategory: string): (r: seq<Faq>)
    ensures Subsequence(r, faqs)
    ensures forall faq :: faq in r <==>
              faq in faqs &&
              (Includes(Lower(faq.question), Lower(searchTerm)) || Includes(Lower(faq.answer), Lower(searchTerm))) &&
              (selectedCategory == "all" || faq.category == selectedCategory)
    ensures forall faq :: multiset(r)[faq] ==
              if Shown(faq, searchTerm, selectedCategory) then multiset(faqs)[faq] else 0
  {
    var shown := (faq: Faq) => Shown(faq, searchTerm, selectedCategory);
    WhereMultiset(faqs, shown);
    Where(faqs, shown)
  }

  /** With no search text and 'all' selected, every FAQ is shown. */
  lemma ShowAll(faqs: seq<Faq>)
    ensures FilterFaqs(faqs, "", "all") == faqs
  {
    forall faq | faq in faqs ensures Shown(faq, "", "all") {
      assert OccursAt(Lower(faq.question), Lower(""), 0);
    }
    WhereAll(faqs, (faq: Faq) => Shown(faq, "", "all"));
  }

  /** Typing the search text in upper or lower case shows the same FAQs. */
  lemma SearchIgnoresCase(faqs: seq<Faq>, searchTerm: string, selectedCategory: string)
    ensures FilterFaqs(faqs, Upper(searchTerm), selectedCategory) == FilterFaqs(faqs, searchTerm, selectedCategory)
    ensures FilterFaqs(faqs, Lower(searchTerm), selectedCategory) == FilterFaqs(faqs, searchTerm, selectedCategory)
  {
    LowerIgnoresCase(searchTerm);
    WhereCongruent(faqs, (faq: Faq) => Shown(faq, Upper(searchTerm), selectedCategory),
                         (faq: Faq) => Shown(faq, searchTerm, selectedCategory));
    WhereCongruent(faqs, (faq: Faq) => Shown(faq, Lower(searchTerm), selectedCategory),
                         (faq: Faq) => Shown(faq, searchTerm, selectedCategory));
  }

  /** A narrower category shows a subset of what 'all' shows. */
  lemma CategoryNarrows(faqs: seq<Faq>, searchTerm: string, selectedCategory: string)
    ensures forall faq :: faq in FilterFaqs(faqs, searchTerm, selectedCategory) ==> faq in FilterFaqs(faqs, searchTerm, "all")
  {
  }

  /** `faqs.map(faq => faq.category)`. */
  function CategoryColumn(faqs: seq<Faq>): (r: seq<string>)
    ensures |r| == |faqs| && forall i :: 0 <= i < |faqs| ==> r[i] == faqs[i].category
  {
    seq(|faqs|, i requires 0 <= i < |faqs| => faqs[i].category)
  }

  /** `categories`: 'all', then every FAQ category once, in order of first
      appearance. 'all' is put in front without checking for a FAQ category
      of the same name. */
  function Categories(faqs: seq<Faq>): (r: seq<string>)
    ensures |r| >= 1 && r[0] == "all"
    ensures forall c :: c in r[1..] <==> exists faq :: faq in faqs && faq.category == c
    ensures forall i, j :: 1 <= i < j < |r| ==> r[i] != r[j]
    ensures forall i, j :: 1 <= i < j < |r| ==>
              r[i] in CategoryColumn(faqs) && r[j] in CategoryColumn(faqs) &&
              FirstIndex(CategoryColumn(faqs), r[i]) < FirstIndex(CategoryColumn(faqs), r[j])
  {
    var column := CategoryColumn(faqs);
    var distinct := Dedupe(column);
    assert forall c :: c in column <==> exists faq :: faq in faqs && faq.category == c by {
      forall c | c in column ensures exists faq :: faq in faqs && faq.category == c {
        var i :| 0 <= i < |column| && column[i] == c;
        assert faqs[i] in faqs;
      }
      forall c | exists faq :: faq in faqs && faq.category == c ensures c in column {
        var faq :| faq in faqs && faq.category == c;
        var i :| 0 <= i < |faqs| && faqs[i] == faq;
        assert column[i] == c;
      }
    }
    var r := ["all"] + distinct;
    assert r[1..] == distinct;
    r
  }

  /** A FAQ filed under 'all' makes 'all' appear twice in the list. */
  lemma CategoryAllTwice(q: string, a: string)
    ensures Categories([Faq(1, q, a, "all")]) == ["all", "all"]
  {
    var faqs := [Faq(1, q, a, "all")];
    assert CategoryColumn(faqs) == ["all"];
    assert Dedupe(["all"]) == ["all"] by {
      assert ["all"][..0] == [];
    }
  }
}
