/** The Gopher item-type table of the client: a closed enumeration of 24 item
    kinds, each encoded by one character of a menu line. The codes 0-9, `+`,
    `T`, `g` and `I` are the item types of section 3.8 of RFC 1436; the others
    are extensions used by clients in the wild. */
module GopherType {
  import opened Results

  datatype Type =
    | Text        // 0
    | Menu        // 1
    | CSOEntity   // 2, unsupported
    | Error       // 3
    | Binhex      // 4
    | DOSFile     // 5
    | UUEncoded   // 6
    | Search      // 7
    | Telnet      // 8
    | Binary      // 9
    | Mirror      // +, unsupported
    | GIF         // g
    | Telnet3270  // T, unsupported
    | HTML        // h
    | Image       // I
    | PNG         // p
    | Info        // i
    | Sound       // s
    | Document    // d
    | Video       // ;
    | Xml         // X
    | Executable  // x
    | Command     // c
    | Mailbox     // M, unsupported

  /** Every character that denotes an item type. */
  const Codes: set<char> :=
    {'0', '1', '2', '3', '4', '5', '6', '7', '8', '9', '+', 'g', 'T', 'h', 'I',
     'p', 'i', 's', 'd', ';', 'c', 'X', 'x', 'M'}

  /** An informational (non-selectable) menu line: code `i`. */
  function IsInfo(t: Type): (b: bool)
    ensures b <==> ToChar(t) == 'i'
  {
    t == Info
  }

  /** A document shown as plain text: codes `0` and `X`. */
  function IsText(t: Type): (b: bool)
    ensures b <==> ToChar(t) in {'0', 'X'}
  {
    t == Text || t == Xml
  }

  /** A link to a web page: code `h`. */
  function IsHtml(t: Type): (b: bool)
    ensures b <==> ToChar(t) == 'h'
  {
    t == HTML
  }

  /** A telnet session: code `8`. */
  function IsTelnet(t: Type): (b: bool)
    ensures b <==> ToChar(t) == '8'
  {
    t == Telnet
  }

  /** Something the user can navigate to or open: every code but `i`. */
  function IsLink(t: Type): (b: bool)
    ensures b <==> ToChar(t) != 'i'
  {
    !IsInfo(t)
  }

  /** Something that is saved to disk rather than displayed. */
  function IsDownload(t: Type): (b: bool)
    ensures b <==> ToChar(t) in {'4', '5', '6', '9', 'g', 'I', 'p', 's', ';', 'c', 'd', 'x'}
  {
    t in {Binhex, DOSFile, UUEncoded, Binary, GIF, Image, PNG, Sound, Video, Command, Document, Executable}
  }

  /** Something handed to the external media player: codes `s` and `;`. */
  function IsMedia(t: Type): (b: bool)
    ensures b <==> ToChar(t) in {'s', ';'}
  {
    t == Sound || t == Video
  }

  /** A kind the client can handle: every code but `2`, `+`, `T` and `M`. */
  function IsSupported(t: Type): (b: bool)
    ensures b <==> ToChar(t) !in {'2', '+', 'T', 'M'}
  {
    !(t in {CSOEntity, Mirror, Telnet3270, Mailbox})
  }

  /** The character that encodes `t` on a menu line. */
  function ToChar(t: Type): (c: char)
    ensures c in Codes
  {
    match t
    case Text => '0'
    case Menu => '1'
    case CSOEntity => '2'
    case Error => '3'
    case Binhex => '4'
    case DOSFile => '5'
    case UUEncoded => '6'
    case Search => '7'
    case Telnet => '8'
    case Binary => '9'
    case Mirror => '+'
    case GIF => 'g'
    case Telnet3270 => 'T'
    case HTML => 'h'
    case Image => 'I'
    case PNG => 'p'
    case Info => 'i'
    case Sound => 's'
    case Document => 'd'
    case Video => ';'
    case Command => 'c'
    case Xml => 'X'
    case Executable => 'x'
    case Mailbox => 'M'
  }

  /** Decodes an item-type character; `None` for a character outside the
      table. Decoding is the left inverse of `ToChar` on the codes. */
  function From(c: char): (r: Option<Type>)
    ensures r.None? <==> c !in Codes
    ensures r.Some? ==> ToChar(r.value) == c
  {
    match c
    case '0' => Some(Text)
    case '1' => Some(Menu)
    case '2' => Some(CSOEntity)
    case '3' => Some(Error)
    case '4' => Some(Binhex)
    case '5' => Some(DOSFile)
    case '6' => Some(UUEncoded)
    case '7' => Some(Search)
    case '8' => Some(Telnet)
    case '9' => Some(Binary)
    case '+' => Some(Mirror)
    case 'g' => Some(GIF)
    case 'T' => Some(Telnet3270)
    case 'h' => Some(HTML)
    case 'I' => Some(Image)
    case 'p' => Some(PNG)
    case 'i' => Some(Info)
    case 's' => Some(Sound)
    case 'd' => Some(Document)
    case ';' => Some(Video)
    case 'c' => Some(Command)
    case 'x' => Some(Executable)
    case 'X' => Some(Xml)
    case 'M' => Some(Mailbox)
    case _ => None
  }

  /** The textual form of an item type: its single code character. */
  function Display(t: Type): (s: string)
    ensures |s| == 1 && From(s[0]) == Some(t)
  {
    ToCharRoundTrip(t);
    [ToChar(t)]
  }

  /** Decoding an encoded type gives the type back. */
  lemma ToCharRoundTrip(t: Type)
    ensures From(ToChar(t)) == Some(t)
  {
  }

  /** Encoding a decoded character gives the character back. */
  lemma FromRoundTrip(c: char)
    requires c in Codes
    ensures From(c).Some? && ToChar(From(c).value) == c
  {
  }

  /** No two item types share a code. */
  lemma ToCharInjective(s: Type, t: Type)
    ensures ToChar(s) == ToChar(t) <==> s == t
  {
    ToCharRoundTrip(s);
    ToCharRoundTrip(t);
  }

  /** The code table is a bijection between the 24 types and `Codes`. */
  lemma CodesAreExactlyTheEncodings(c: char)
    ensures c in Codes <==> exists t :: ToChar(t) == c
  {
    if c in Codes {
      assert ToChar(From(c).value) == c;
    }
  }

  /** The one kind decoded from `i` is the one kind that is not a link, and
      an info line is none of the other kinds either. */
  lemma LinkIffNotInfo(t: Type)
    ensures IsLink(t) <==> From('i') != Some(t)
    ensures IsInfo(t) ==> !IsText(t) && !IsHtml(t) && !IsTelnet(t) && !IsDownload(t) && !IsMedia(t)
  {
  }

  /** Media items are a kind of download. */
  lemma MediaIsDownload(t: Type)
    ensures IsMedia(t) ==> IsDownload(t)
    ensures IsMedia(t) ==> IsLink(t) && IsSupported(t)
  {
  }

  /** Exactly four kinds are unsupported, and exactly two render as text. */
  lemma SupportedAndTextKinds(t: Type)
    ensures !IsSupported(t) <==> t == CSOEntity || t == Mirror || t == Telnet3270 || t == Mailbox
    ensures IsText(t) <==> ToChar(t) == '0' || ToChar(t) == 'X'
    ensures IsDownload(t) ==> !IsText(t) && IsSupported(t) && IsLink(t)
  {
  }
}
