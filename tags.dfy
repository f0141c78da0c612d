/** The coarse part-of-speech tags shared by the lexicon, the tagger and the parser. */
module Tags {

  /** The source uses the short codes as strings; `Name` gives them back. */
  datatype Tag = N | V | ADJ | ADV | DET | PRON | PREP | CONJ | INTJ | EOF | UNK

  function Name(t: Tag): string {
    match t
    case N => "N"
    case V => "V"
    case ADJ => "ADJ"
    case ADV => "ADV"
    case DET => "DET"
    case PRON => "PRON"
    case PREP => "PREP"
    case CONJ => "CONJ"
    case INTJ => "INTJ"
    case EOF => "EOF"
    case UNK => "UNK"
  }
}
