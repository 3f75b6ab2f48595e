/** The page's choice of body silhouette: the subject's gender and the view
    (page.tsx keeps both as state), the view toggle and the export file name. */
module Subject {
  datatype Gender = Male | Female
  datatype View = Front | Back

  function GenderName(g: Gender): string {
    match g
    case Male => "male"
    case Female => "female"
  }

  function ViewName(v: View): string {
    match v
    case Front => "front"
    case Back => "back"
  }

  /** The "Switch to ..." button: the other view of the two. */
  function Toggled(v: View): (r: View)
    ensures r != v
  {
    if v == Front then Back else Front
  }

  lemma ToggledTwice(v: View)
    ensures Toggled(Toggled(v)) == v
  {
  }

  /** The download file name: a ".png" named "pain-diagram-" followed by the
      gender and the view. */
  function FileName(g: Gender, v: View): (r: string)
    ensures |r| == 18 + |GenderName(g)| + |ViewName(v)|
    ensures r[..13] == "pain-diagram-" && r[|r| - 4..] == ".png"
    ensures r[13..13 + |GenderName(g)|] == GenderName(g)
    ensures r[13 + |GenderName(g)|..|r| - 4] == "-" + ViewName(v)
  {
    "pain-diagram-" + GenderName(g) + "-" + ViewName(v) + ".png"
  }

  /** The four selections give four different file names. */
  lemma FileNameInjective(g1: Gender, v1: View, g2: Gender, v2: View)
    requires FileName(g1, v1) == FileName(g2, v2)
    ensures g1 == g2 && v1 == v2
  {
  }
}
