/** `detect_pingcastle_artifact`: which PingCastle artifact a normalized document is. */
module Classify {
  import opened Wrappers
  import opened Xml

  datatype ArtifactKind = Rules | Report | Unknown

  /** The root is a rules catalog: tagged `ArrayOfExportedRule`, or with an `ExportedRule` child. */
  predicate IsRulesShape(root: Element) {
    root.tag == "ArrayOfExportedRule" || exists c :: c in root.children && c.tag == "ExportedRule"
  }

  /** Some strict descendant of the root is tagged `tag`. */
  predicate HasDescendant(root: Element, tag: string) {
    exists d :: d in Descendants(root) && d.tag == tag
  }

  /**
   * Rules shape is tested first and wins even when report markers are also
   * present; a report needs both a `RiskRules` and a `DomainFQDN` descendant.
   */
  function Detect(root: Element): (k: ArtifactKind)
    ensures k == Rules <==> IsRulesShape(root)
    ensures k == Report <==> !IsRulesShape(root) && HasDescendant(root, "RiskRules") && HasDescendant(root, "DomainFQDN")
    ensures k == Unknown <==> !IsRulesShape(root) && !(HasDescendant(root, "RiskRules") && HasDescendant(root, "DomainFQDN"))
  {
    FirstWithTagSpec(root.children, "ExportedRule");
    FirstWithTagSpec(Descendants(root), "RiskRules");
    FirstWithTagSpec(Descendants(root), "DomainFQDN");
    if root.tag == "ArrayOfExportedRule" || FindChild(root, "ExportedRule").Some? then Rules
    else if FindDescendant(root, "RiskRules").Some? && FindDescendant(root, "DomainFQDN").Some? then Report
    else Unknown
  }
}
