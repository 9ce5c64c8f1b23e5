/** `detectUniversityType`: a keyword heuristic labelling a university
    public, private or unknown from its name alone. */
module Classifier {
  import opened Text

  datatype UniversityType = Public | Private | Unknown

  const PublicKeywords: seq<string> := ["state", "public", "national", "government", "municipal", "federal"]
  const PrivateKeywords: seq<string> := ["private", "institute", "college", "academy"]

  /** `keywords.some(keyword => name.includes(keyword))` */
  predicate MentionsAny(name: string, keywords: seq<string>)
  {
    exists i | 0 <= i < |keywords| :: Contains(name, keywords[i])
  }

  /** A public keyword wins over any private one; with neither the
      answer is unknown. Matching ignores ASCII case. */
  function DetectUniversityType(universityName: string): (t: UniversityType)
    ensures t == Public <==> MentionsAny(Lower(universityName), PublicKeywords)
    ensures t == Private <==>
      !MentionsAny(Lower(universityName), PublicKeywords) && MentionsAny(Lower(universityName), PrivateKeywords)
    ensures t == Unknown <==>
      !MentionsAny(Lower(universityName), PublicKeywords) && !MentionsAny(Lower(universityName), PrivateKeywords)
  {
    var name := Lower(universityName);
    var isPublic := MentionsAny(name, PublicKeywords);
    var isPrivate := MentionsAny(name, PrivateKeywords);
    if isPublic then Public
    else if isPrivate then Private
    else Unknown
  }

  /** "State Private Institute" holds one public and two private
      keywords, and is classified public. */
  lemma TieBreakGoesToPublic()
    ensures DetectUniversityType("State Private Institute") == Public
  {
    var name := Lower("State Private Institute");
    assert name[..5] == "state";
    assert Contains(name, PublicKeywords[0]);
  }
}
