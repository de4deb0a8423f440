/** The text of one row of the characters list. */
module PersonListItem {
  import opened Text
  import opened StarWars

  /** `formatGender`: "n/a" is kept as it is; anything else is capitalised. */
  function FormatGender(g: string): (r: string)
    ensures |r| == |g|
    ensures g == "n/a" ==> r == "n/a"
    ensures g != "n/a" && g != "" ==> r[0] == UpperChar(g[0]) && r[1..] == Lower(g[1..])
    ensures g == "" ==> r == ""
  {
    if g == "n/a" then g else Capitalize(g)
  }

  /** Formatting a formatted gender changes nothing. */
  lemma FormatGenderIdempotent(g: string)
    ensures FormatGender(FormatGender(g)) == FormatGender(g)
  {
    if g != "n/a" && g != "" {
      assert Capitalize(g)[0] != "n/a"[0];
      CapitalizeIdempotent(g);
    }
  }

  const MetaSeparator := " \U{B7} "

  /** The line under the name: the formatted gender, a middle dot, the birth year. */
  function MetaLine(p: Person): (line: string)
    ensures |line| == |p.gender| + |MetaSeparator| + |p.birthYear|
    ensures line[..|p.gender|] == FormatGender(p.gender)
    ensures line[|p.gender|..|p.gender| + |MetaSeparator|] == MetaSeparator
    ensures line[|p.gender| + |MetaSeparator|..] == p.birthYear
  {
    FormatGender(p.gender) + MetaSeparator + p.birthYear
  }
}
