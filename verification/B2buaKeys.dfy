// The names under which the leg table's entries stand in the worker's flat cache:
// no two entries share one.
module B2buaKeys {
  import opened B2bua
  import opened Text

  function Label(name: FieldName): string {
    match name
    case Status => "b2bua_state"
    case Created => "b2bua_created"
    case InCid => "b2bua_in_cid"
    case OutCid => "b2bua_out_cid"
    case InFrom => "b2bua_in_from"
    case InTo => "b2bua_in_to"
    case InVia => "b2bua_in_via"
    case InTag => "b2bua_in_tag"
    case OutTag => "b2bua_out_tag"
    case RemoteTo => "b2bua_out_remote_to"
    case OutInvite => "b2bua_out_invite"
    case PendingInvite => "b2bua_pending_invite"
    case Target => "b2bua_target"
    case Transport => "b2bua_transport"
    case Peer => "b2bua_peer"
    case PeerTransport => "b2bua_peer_transport"
    case InviteCseq => "b2bua_invite_cseq"
    case OutCseq => "b2bua_out_cseq"
    case PeerCseq => "b2bua_peer_cseq"
    case PendingMethod => "b2bua_pending_method"
    case PendingInCseq => "b2bua_pending_in_cseq"
    case PendingOutCseq => "b2bua_pending_out_cseq"
  }

  function Render(k: CacheKey): string {
    match k
    case Sequence => "b2bua_seq"
    case Slot(slot) => "b2bua_ring" + "|" + IntText(slot)
    case OutKey(cid) => "b2bua_out_key" + "|" + cid
    case Field(name, session) => Label(name) + "|" + session
  }

  // A label is told apart by its length and two of its characters.
  function Code(head: string): int
    requires |head| > 8
  {
    1000 * |head| + head[8] as int + head[|head| - 1] as int
  }

  // The codes of the labels worked out, so that they can be compared as numbers.
  function CodeOf(name: FieldName): int {
    match name
    case Status => 11198
    case Created => 13201
    case InCid => 12195
    case OutCid => 13216
    case InFrom => 13204
    case InTo => 11206
    case InVia => 12192
    case InTag => 12198
    case OutTag => 13219
    case RemoteTo => 19227
    case OutInvite => 16217
    case PendingInvite => 20211
    case Target => 12230
    case Transport => 15213
    case Peer => 10215
    case PeerTransport => 20217
    case InviteCseq => 17231
    case OutCseq => 14229
    case PeerCseq => 15214
    case PendingMethod => 20210
    case PendingInCseq => 21223
    case PendingOutCseq => 22223
  }

  lemma LabelCode(name: FieldName)
    ensures |Label(name)| > 8 && Code(Label(name)) == CodeOf(name)
  {
  }

  lemma LabelHasNoBar(name: FieldName)
    ensures forall i :: 0 <= i < |Label(name)| ==> Label(name)[i] != '|'
  {
  }

  lemma CodesDistinct(a: FieldName, b: FieldName)
    requires CodeOf(a) == CodeOf(b)
    ensures a == b
  {
  }

  function LabelOf(k: CacheKey): string
    requires !k.Sequence?
  {
    match k
    case Slot(_) => "b2bua_ring"
    case OutKey(_) => "b2bua_out_key"
    case Field(name, _) => Label(name)
  }

  function RestOf(k: CacheKey): string
    requires !k.Sequence?
  {
    match k
    case Slot(slot) => IntText(slot)
    case OutKey(cid) => cid
    case Field(_, session) => session
  }

  lemma IntTextInjective(a: int, b: int)
    requires IntText(a) == IntText(b)
    ensures a == b
  {
    ParseIntText(a);
    ParseIntText(b);
  }

  // The label ends at the first bar, so an entry's name can be read back.
  lemma RenderSplits(k: CacheKey)
    ensures k.Sequence? ==> FindChar(Render(k), '|', 0) == |Render(k)|
    ensures !k.Sequence? ==>
      && FindChar(Render(k), '|', 0) == |LabelOf(k)| < |Render(k)|
      && Render(k)[..|LabelOf(k)|] == LabelOf(k) && Render(k)[|LabelOf(k)| + 1..] == RestOf(k)
  {
    hide IntText, Label;
    if k.Sequence? {
      FindCharIs(Render(k), '|', 0, |Render(k)|);
    } else {
      var head := LabelOf(k);
      if k.Field? { LabelHasNoBar(k.name); }
      assert Render(k) == head + "|" + RestOf(k);
      FindCharIs(Render(k), '|', 0, |head|);
    }
  }

  lemma RenderInjective(a: CacheKey, b: CacheKey)
    requires Render(a) == Render(b)
    ensures a == b
  {
    hide IntText, Label, Render, FindChar, CodeOf;
    RenderSplits(a);
    RenderSplits(b);
    if !a.Sequence? && !b.Sequence? {
      assert LabelOf(a) == LabelOf(b) && RestOf(a) == RestOf(b);
      LabelsDiffer(a, b);
      if a.Slot? { IntTextInjective(a.slot, b.slot); }
    }
  }

  lemma LabelsDiffer(a: CacheKey, b: CacheKey)
    requires !a.Sequence? && !b.Sequence? && LabelOf(a) == LabelOf(b)
    ensures (a.Slot? <==> b.Slot?) && (a.OutKey? <==> b.OutKey?)
    ensures a.Field? && b.Field? ==> a.name == b.name
  {
    hide Label, IntText;
    assert Code("b2bua_ring") == 10213 && Code("b2bua_out_key") == 13237;
    if a.Field? { NotFieldCode(a); }
    if b.Field? { NotFieldCode(b); }
    if a.Field? && b.Field? {
      LabelCode(a.name);
      LabelCode(b.name);
      CodesDistinct(a.name, b.name);
    }
  }

  lemma NotFieldCode(k: CacheKey)
    requires k.Field?
    ensures |LabelOf(k)| > 8 && Code(LabelOf(k)) !in {10213, 13237}
  {
    LabelCode(k.name);
  }
}
