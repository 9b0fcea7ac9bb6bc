/**
 * The nine task states, their storage keys and the two display maps
 * (colour classes and Spanish names) with the fallbacks the tooltip applies
 * to a status string it reads from the store.
 */
module Status {
  import opened Options

  datatype TaskStatus =
    | Prioritized
    | Critical
    | PriorityChange
    | Impacted
    | ExternalDev
    | InDevelopment
    | Planned
    | Blocked
    | Completed

  /** The key under which a state is stored and looked up. */
  function StatusKey(s: TaskStatus): string {
    match s
    case Prioritized => "prioritized"
    case Critical => "critical"
    case PriorityChange => "priority-change"
    case Impacted => "impacted"
    case ExternalDev => "external-dev"
    case InDevelopment => "in-development"
    case Planned => "planned"
    case Blocked => "blocked"
    case Completed => "completed"
  }

  /** Lookup of a stored status string among the nine keys. */
  function ParseStatus(raw: string): (r: Option<TaskStatus>)
    ensures r.Some? ==> StatusKey(r.value) == raw
    ensures forall s :: StatusKey(s) == raw ==> r == Some(s)
  {
    if raw == "prioritized" then Some(Prioritized)
    else if raw == "critical" then Some(Critical)
    else if raw == "priority-change" then Some(PriorityChange)
    else if raw == "impacted" then Some(Impacted)
    else if raw == "external-dev" then Some(ExternalDev)
    else if raw == "in-development" then Some(InDevelopment)
    else if raw == "planned" then Some(Planned)
    else if raw == "blocked" then Some(Blocked)
    else if raw == "completed" then Some(Completed)
    else None
  }

  /** Distinct states have distinct keys. */
  lemma StatusKeyInjective(a: TaskStatus, b: TaskStatus)
    ensures StatusKey(a) == StatusKey(b) ==> a == b
  {
    var r := ParseStatus(StatusKey(a));
    assert r == Some(a);
  }

  /** `statusColors`: the Tailwind class string of each state. */
  function StatusColor(s: TaskStatus): (c: string)
    ensures c != ""
  {
    match s
    case Prioritized => "bg-blue-100 border-blue-200"
    case Critical => "bg-indigo-700 border-indigo-800 text-white"
    case PriorityChange => "bg-orange-400 border-orange-500 text-white"
    case Impacted => "bg-red-300 border-red-400"
    case ExternalDev => "bg-green-400 border-green-500 text-white"
    case InDevelopment => "bg-indigo-700 border-indigo-800 text-white"
    case Planned => "bg-blue-100 border-blue-200"
    case Blocked => "bg-amber-300 border-amber-400"
    case Completed => "bg-gray-200 border-gray-300"
  }

  /** `statusNames`: the Spanish label of each state. */
  function StatusName(s: TaskStatus): (n: string)
    ensures n != ""
  {
    match s
    case Prioritized => "Priorizada"
    case Critical => "Ruta Crítica"
    case PriorityChange => "Cambio de prioridad"
    case Impacted => "Impactada"
    case ExternalDev => "Desarrollo externo"
    case InDevelopment => "En desarrollo"
    case Planned => "Lista"
    case Blocked => "Bloqueada"
    case Completed => "Completada"
  }

  /** The nine labels are pairwise different, so a label identifies its state. */
  lemma StatusNameInjective(a: TaskStatus, b: TaskStatus)
    ensures StatusName(a) == StatusName(b) ==> a == b
  {
  }

  /**
   * `statusColors[status] || "bg-gray-100"` for a status string read from the
   * store: the map's entry for a known key, the grey default otherwise.
   */
  function TooltipStatusColor(raw: string): (c: string)
    ensures forall s :: raw == StatusKey(s) ==> c == StatusColor(s)
    ensures ParseStatus(raw).None? ==> c == "bg-gray-100"
  {
    match ParseStatus(raw)
    case Some(s) => if StatusColor(s) != "" then StatusColor(s) else "bg-gray-100"
    case None => "bg-gray-100"
  }

  /**
   * `statusNames[status] || status`: the Spanish label for a known key, the
   * raw string itself otherwise.
   */
  function TooltipStatusName(raw: string): (n: string)
    ensures forall s :: raw == StatusKey(s) ==> n == StatusName(s)
    ensures ParseStatus(raw).None? ==> n == raw
  {
    match ParseStatus(raw)
    case Some(s) => if StatusName(s) != "" then StatusName(s) else raw
    case None => raw
  }
}
