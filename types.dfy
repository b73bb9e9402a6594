/** The closed enumerations and records of the quoting tool (types.ts). */
module Types {
  import opened Seqs

  /** The ten age brackets of the price tables, youngest first. */
  datatype AgeRange =
    | Range0To18 | Range19To23 | Range24To28 | Range29To33 | Range34To38
    | Range39To43 | Range44To48 | Range49To53 | Range54To58 | Range59Plus

  const AllRanges: seq<AgeRange> := [
    Range0To18, Range19To23, Range24To28, Range29To33, Range34To38,
    Range39To43, Range44To48, Range49To53, Range54To58, Range59Plus
  ]

  /** The string value of each enum member, used as the key of price tables
      and of the bracket selection. */
  function Label(r: AgeRange): string
  {
    match r
    case Range0To18 => "0-18"
    case Range19To23 => "19-23"
    case Range24To28 => "24-28"
    case Range29To33 => "29-33"
    case Range34To38 => "34-38"
    case Range39To43 => "39-43"
    case Range44To48 => "44-48"
    case Range49To53 => "49-53"
    case Range54To58 => "54-58"
    case Range59Plus => "59+"
  }

  /** The bracket a key string names, if it names one. */
  function ParseRange(s: string): (r: Option<AgeRange>)
    ensures r.Some? ==> Label(r.value) == s
  {
    if s == "0-18" then Some(Range0To18)
    else if s == "19-23" then Some(Range19To23)
    else if s == "24-28" then Some(Range24To28)
    else if s == "29-33" then Some(Range29To33)
    else if s == "34-38" then Some(Range34To38)
    else if s == "39-43" then Some(Range39To43)
    else if s == "44-48" then Some(Range44To48)
    else if s == "49-53" then Some(Range49To53)
    else if s == "54-58" then Some(Range54To58)
    else if s == "59+" then Some(Range59Plus)
    else None
  }

  /** The enumeration is exactly the ten listed brackets, each with its own
      label, from "0-18" to "59+". */
  lemma AgeRangeIsClosed(r: AgeRange)
    ensures r in AllRanges
    ensures ParseRange(Label(r)) == Some(r)
    ensures |AllRanges| == 10 && Distinct(AllRanges)
    ensures Label(AllRanges[0]) == "0-18" && Label(AllRanges[9]) == "59+"
  {
  }

  /** Contracting category: individual, or business with 1, 2-29 or 30+ lives. */
  datatype QuoteCategory = PF | PME_1 | PME_2 | PME_30

  /** `quoteCategory?.startsWith('PME')`. */
  predicate IsBusiness(c: Option<QuoteCategory>)
  {
    c == Some(PME_1) || c == Some(PME_2) || c == Some(PME_30)
  }

  /** 'full': copay on every service; 'partial': only on therapies; 'none'. */
  datatype CoparticipationType = Full | Partial | NoCopart

  datatype RoomType = Enfermaria | Apartamento

  datatype CopayFee = CopayFee(service: string, value: string)

  /** A catalogue entry. Prices are exact amounts in centavos; a bracket with
      no key in `prices` is not offered. */
  datatype HealthPlan = HealthPlan(
    id: string,
    name: string,
    operator: string,
    roomType: RoomType,
    coparticipationType: CoparticipationType,
    logoColor: string,
    prices: map<AgeRange, int>,
    hospitals: seq<string>,
    description: string,
    categories: seq<QuoteCategory>,
    coverage: string,
    gracePeriods: seq<string>,
    copayFees: seq<CopayFee>)

  /** One line of a price breakdown. */
  datatype Detail = Detail(ageRange: AgeRange, count: nat, unitPrice: int, subtotal: int)

  datatype CalculatedPlan = CalculatedPlan(plan: HealthPlan, totalPrice: int, details: seq<Detail>)

  /** One entry of the bracket selection: a bracket and its number of lives. */
  datatype Entry = Entry(range: AgeRange, count: nat)

  datatype AccessStatus = Pending | Approved | Rejected

  datatype BillingPlan = Monthly | Quarterly

  datatype UserProfile = UserProfile(
    id: string,
    email: string,
    fullName: string,
    cpf: string,
    phone: string,
    status: AccessStatus,
    plan: Option<BillingPlan>,
    createdAt: string)
}
