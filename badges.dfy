/** Badge colours. The contract-status switch is written out identically
    in the contract page, the calendar page and (as
    `getRentalStatusBadgeColor`) the renter page; it is defined once here. */
module Badges {
  import opened Domain
  import opened Wrappers

  const Available: string := "Available"
  const Rented: string := "Rented"

  /** `getStatusBadgeColor` of the contract and calendar pages. */
  function StatusBadgeColor(status: string): (color: string)
    ensures color == "gray" <==> status !in {Active, Pending, Completed, Cancelled}
    ensures status == Active <==> color == "green"
    ensures status == Pending <==> color == "yellow"
    ensures status == Completed <==> color == "blue"
    ensures status == Cancelled <==> color == "red"
  {
    if status == Active then "green"
    else if status == Pending then "yellow"
    else if status == Completed then "blue"
    else if status == Cancelled then "red"
    else "gray"
  }

  /** The renter page's product badge: `Available` green, `Rented` amber. */
  function ProductBadgeColor(status: string): (color: string)
    ensures color == "green" <==> status == Available
    ensures color == "amber" <==> status == Rented
    ensures color == "gray" <==> status !in {Available, Rented}
  {
    if status == Available then "green"
    else if status == Rented then "amber"
    else "gray"
  }

  /** The badge a product card shows: `product.status || 'Available'`. */
  function ProductCardColor(p: Product): (color: string)
    ensures (p.status.None? || p.status.value == "") ==> color == "green"
    ensures color == "green" <==> p.status.None? || p.status.value in {"", Available}
    ensures color == "amber" <==> p.status == Some(Rented)
    ensures color == "gray" <==> p.status.Some? && p.status.value !in {"", Available, Rented}
  {
    ProductBadgeColor(if p.status.None? || p.status.value == "" then Available else p.status.value)
  }
}
