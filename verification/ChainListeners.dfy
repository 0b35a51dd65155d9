/** The fan-out of block notifications to the channel manager, the chain monitor and the wallet. */
module ChainListeners {
  import opened Bytes

  type Header = seq<Byte>
  type Tx = seq<Byte>

  /** A transaction with its position in the block. */
  datatype Placed = Placed(index: nat, tx: Tx)

  datatype Notice =
    | Connected(header: Header, txdata: seq<Placed>, height: nat)
    | Disconnected(forkHash: Header, forkHeight: nat)

  /** What the wallet is handed: a block rebuilt from the header and the transactions. */
  datatype Block = Block(header: Header, txs: seq<Tx>, height: nat)

  function Transactions(txdata: seq<Placed>): (txs: seq<Tx>)
    ensures |txs| == |txdata| && forall i :: 0 <= i < |txdata| ==> txs[i] == txdata[i].tx
  {
    seq(|txdata|, i requires 0 <= i < |txdata| => txdata[i].tx)
  }

  /** The blocks connected by `notices`, in order. */
  function BlocksOf(notices: seq<Notice>): seq<Block> {
    if notices == [] then []
    else
      var init, last := BlocksOf(notices[..|notices| - 1]), notices[|notices| - 1];
      if last.Connected? then init + [Block(last.header, Transactions(last.txdata), last.height)]
      else init
  }

  class ChainListener {
    var channelManager: seq<Notice>
    var chainMonitor: seq<Notice>
    var wallet: seq<Block>
    var stopped: bool
    ghost var delivered: seq<Notice>

    /**
     * The managers have seen every notice alike, and the wallet every connected block; only a block
     * the wallet refused, which stops the listener, is missing from it.
     */
    ghost predicate Valid()
      reads this
    {
      && channelManager == delivered && chainMonitor == delivered
      && (!stopped ==> wallet == BlocksOf(delivered))
      && (stopped ==> delivered != [] && delivered[|delivered| - 1].Connected?
                      && wallet == BlocksOf(delivered[..|delivered| - 1]))
    }

    constructor ()
      ensures Valid() && !stopped && delivered == []
    {
      channelManager, chainMonitor, wallet, stopped, delivered := [], [], [], false, [];
    }

    /** `accepted` is the wallet's answer; a refusal is unwrapped and stops the listener. */
    method FilteredBlockConnected(header: Header, txdata: seq<Placed>, height: nat, accepted: bool)
      requires Valid() && !stopped
      modifies this
      ensures Valid() && stopped == !accepted
      ensures delivered == old(delivered) + [Connected(header, txdata, height)]
    {
      var notice := Connected(header, txdata, height);
      ghost var more := delivered + [notice];
      assert more[..|more| - 1] == delivered;
      channelManager := channelManager + [notice];
      chainMonitor := chainMonitor + [notice];
      delivered := more;
      var txs: seq<Tx> := [];
      for i := 0 to |txdata|
        invariant |txs| == i && forall k :: 0 <= k < i ==> txs[k] == txdata[k].tx
      {
        txs := txs + [txdata[i].tx];
      }
      assert txs == Transactions(txdata);
      if !accepted {
        stopped := true;
        return;
      }
      wallet := wallet + [Block(header, txs, height)];
    }

    /** The wallet is not told of disconnections. */
    method BlocksDisconnected(forkHash: Header, forkHeight: nat)
      requires Valid() && !stopped
      modifies this
      ensures Valid() && !stopped && wallet == old(wallet)
      ensures delivered == old(delivered) + [Disconnected(forkHash, forkHeight)]
    {
      var notice := Disconnected(forkHash, forkHeight);
      ghost var more := delivered + [notice];
      assert more[..|more| - 1] == delivered;
      channelManager := channelManager + [notice];
      chainMonitor := chainMonitor + [notice];
      delivered := more;
    }

    /** Any sequence of notices, up to the first block the wallet refuses. */
    method Follow(notices: seq<Notice>, accepts: seq<bool>) returns (n: nat)
      requires Valid() && !stopped && delivered == [] && |accepts| == |notices|
      modifies this
      ensures Valid() && n <= |notices| && (n < |notices| ==> stopped)
      ensures channelManager == chainMonitor == notices[..n]
      ensures !stopped ==> n == |notices| && wallet == BlocksOf(notices)
      ensures stopped ==> n > 0 && wallet == BlocksOf(notices[..n - 1])
      ensures stopped ==> notices[n - 1].Connected? && !accepts[n - 1]
      ensures forall k :: 0 <= k < (if stopped then n - 1 else n) && notices[k].Connected? ==> accepts[k]
    {
      n := 0;
      while n < |notices| && !stopped
        invariant Valid() && n <= |notices| && delivered == notices[..n]
        invariant stopped ==> n > 0 && notices[n - 1].Connected? && !accepts[n - 1]
        invariant forall k :: 0 <= k < (if stopped then n - 1 else n) && notices[k].Connected? ==> accepts[k]
        decreases |notices| - n
      {
        match notices[n] {
          case Connected(header, txdata, height) =>
            FilteredBlockConnected(header, txdata, height, accepts[n]);
          case Disconnected(hash, height) =>
            BlocksDisconnected(hash, height);
        }
        n := n + 1;
      }
      assert stopped ==> notices[..n][..n - 1] == notices[..n - 1];
      assert n == |notices| ==> notices[..n] == notices;
    }
  }

  ghost predicate Handed(notice: Notice, block: Block) {
    && notice.Connected?
    && block.header == notice.header && block.height == notice.height
    && |block.txs| == |notice.txdata|
    && forall i :: 0 <= i < |block.txs| ==> block.txs[i] == notice.txdata[i].tx
  }

  /** `blocks` are the connects of `notices`, found at the ascending positions `pos`. */
  ghost predicate HandedAt(notices: seq<Notice>, pos: seq<nat>, blocks: seq<Block>) {
    && |pos| == |blocks|
    && (forall i, j :: 0 <= i < j < |pos| ==> pos[i] < pos[j])
    && (forall i :: 0 <= i < |pos| ==> pos[i] < |notices| && Handed(notices[pos[i]], blocks[i]))
    && (forall k :: 0 <= k < |notices| && notices[k].Connected? ==> k in pos)
  }

  lemma HandedNext(notices: seq<Notice>, pos: seq<nat>, blocks: seq<Block>, next: Notice, block: Block)
    requires HandedAt(notices, pos, blocks)
    ensures next.Connected? && Handed(next, block) ==>
              HandedAt(notices + [next], pos + [|notices|], blocks + [block])
    ensures !next.Connected? ==> HandedAt(notices + [next], pos, blocks)
  {
    var more := pos + [|notices|];
    assert more[|pos|] == |notices| && forall k :: k in pos ==> k in more;
  }

  /**
   * The blocks handed on are exactly the connects, in order, each with the same header, height and
   * transactions in the order of `txdata`.
   */
  lemma {:induction false} BlocksInOrder(notices: seq<Notice>) returns (pos: seq<nat>)
    ensures HandedAt(notices, pos, BlocksOf(notices))
  {
    if notices == [] {
      return [];
    }
    var init, last := notices[..|notices| - 1], notices[|notices| - 1];
    pos := BlocksInOrder(init);
    assert notices == init + [last];
    if last.Connected? {
      HandedNext(init, pos, BlocksOf(init), last,
                 Block(last.header, Transactions(last.txdata), last.height));
      pos := pos + [|init|];
    } else {
      HandedNext(init, pos, BlocksOf(init), last, Block([], [], 0));
    }
  }
}
