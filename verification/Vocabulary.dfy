/** The closed vocabularies shared by the models, with their stored values. */
module Vocabulary {
  datatype Category =
    | Job | Freelance | Consulting | Client | Startup | Grant | Fellowship | Scholarship | Accelerator
    | Incubator | Competition | Conference | Speaking | Research | Partnership | Business | OpenSource | Other

  datatype Remote = Onsite | Hybrid | RemoteWork | Unknown

  function CategoryValue(c: Category): string {
    match c
    case Job => "job"
    case Freelance => "freelance"
    case Consulting => "consulting"
    case Client => "client"
    case Startup => "startup"
    case Grant => "grant"
    case Fellowship => "fellowship"
    case Scholarship => "scholarship"
    case Accelerator => "accelerator"
    case Incubator => "incubator"
    case Competition => "competition"
    case Conference => "conference"
    case Speaking => "speaking"
    case Research => "research"
    case Partnership => "partnership"
    case Business => "business"
    case OpenSource => "open_source"
    case Other => "other"
  }

  function RemoteValue(r: Remote): string {
    match r
    case Onsite => "onsite"
    case Hybrid => "hybrid"
    case RemoteWork => "remote"
    case Unknown => "unknown"
  }

  datatype Recommendation = StronglyPursue | Pursue | Consider | Wait | LowPriority | Ignore | Ineligible

  /** How enthusiastic a verdict is; WAIT stands for an enthusiastic verdict on thin evidence. */
  function Enthusiasm(r: Recommendation): nat {
    match r
    case StronglyPursue => 6
    case Pursue => 5
    case Wait => 4
    case Consider => 3
    case LowPriority => 2
    case Ignore => 1
    case Ineligible => 0
  }
}
