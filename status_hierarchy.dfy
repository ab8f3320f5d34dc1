// The order-status ladder of the e-mail synchroniser (email_manager.py,
// STATUS_HIERARCHY and _is_status_upgrade): a status may be replaced only by
// one at least as advanced, so automated updates never move an order back.

module StatusHierarchy {

  const InAttesa := "In Attesa"
  const Problema := "Problema/Eccezione"
  const Spedito := "Spedito"
  const InTransito := "In Transito"
  const InConsegna := "In Consegna"
  const Consegnato := "Consegnato"
  const Rimborsato := "Rimborsato"
  const Annullato := "Annullato"

  /** The labels ORDER_STATUSES offers in the user interface (config.py). */
  const OrderStatuses: seq<string> :=
    [InAttesa, Spedito, InTransito, InConsegna, Consegnato, Problema]

  /** `STATUS_HIERARCHY.get(s, 0)`: labels outside the table rank as "In Attesa". */
  function Rank(s: string): (r: nat)
    ensures r <= 5
    ensures r == 5 <==> s in {Consegnato, Rimborsato, Annullato}
    ensures r == 0 <==> s !in {Problema, Spedito, InTransito, InConsegna, Consegnato, Rimborsato, Annullato}
  {
    if s == Problema then 1
    else if s == Spedito then 2
    else if s == InTransito then 3
    else if s == InConsegna then 4
    else if s == Consegnato || s == Rimborsato || s == Annullato then 5
    else 0
  }

  /**
   * `_is_status_upgrade(current, next)`: an empty (or missing) new status is
   * never an upgrade; a missing current status counts as "In Attesa".
   */
  predicate IsStatusUpgrade(current: string, next: string)
  {
    next != "" && Rank(next) >= Rank(if current == "" then InAttesa else current)
  }

  /** A missing or empty new status never replaces anything. */
  lemma EmptyNeverUpgrades(current: string)
    ensures !IsStatusUpgrade(current, "")
  {
  }

  /** Every non-empty status may be written over an order that has no status yet. */
  lemma AnyStatusOverMissing(next: string)
    requires next != ""
    ensures IsStatusUpgrade("", next) && IsStatusUpgrade(InAttesa, next)
  {
  }

  /** The upgrade relation is a total preorder on non-empty labels. */
  lemma UpgradeReflexive(s: string)
    requires s != ""
    ensures IsStatusUpgrade(s, s)
  {
  }

  lemma UpgradeTransitive(a: string, b: string, c: string)
    requires IsStatusUpgrade(a, b) && IsStatusUpgrade(b, c)
    ensures IsStatusUpgrade(a, c)
  {
  }

  lemma UpgradeTotal(a: string, b: string)
    requires a != "" && b != ""
    ensures IsStatusUpgrade(a, b) || IsStatusUpgrade(b, a)
  {
  }

  /** Once an order is delivered, refunded or cancelled only those three labels may follow. */
  lemma TerminalStaysTerminal(current: string, next: string)
    requires current in {Consegnato, Rimborsato, Annullato}
    ensures IsStatusUpgrade(current, next) <==> next in {Consegnato, Rimborsato, Annullato}
  {
  }

  /** A problem report can only replace a status that is not yet under way. */
  lemma ProblemOnlyEarly(current: string)
    ensures IsStatusUpgrade(current, Problema) <==> Rank(if current == "" then InAttesa else current) <= 1
  {
  }

  /**
   * Applying an upgrade never lowers the rank of the stored status: whatever
   * `current` was, the status kept afterwards ranks at least as high.
   */
  lemma UpgradeKeepsRank(current: string, next: string)
    ensures Rank(if IsStatusUpgrade(current, next) then next else current) >= Rank(current)
  {
  }
}
