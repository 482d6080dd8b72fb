/** The stored bytes, spelled out for one entry of each table and one record of each kind. */
module Formats {
  import opened Bytes
  import opened Keys

  /** Keys hold numbers big-endian, records hold them little-endian. */
  lemma NumberFormat()
    ensures Big(258, 8) == [0, 0, 0, 0, 0, 0, 1, 2] && Big(3, 4) == [0, 0, 0, 3] && Big(65539, 4) == [0, 1, 0, 3]
    ensures Little(258, 8) == [2, 1, 0, 0, 0, 0, 0, 0]
  {
    hide Big, Little;
    WideBig();
    NarrowBig();
    LittleStep(258, 7);
    LittleStep(1, 6);
    LittleOfZero(6);
  }

  lemma WideBig()
    ensures Big(258, 8) == [0, 0, 0, 0, 0, 0, 1, 2]
  {
    hide Big;
    BigStep(258, 7);
    BigStep(1, 6);
    BigOfZero(6);
  }

  lemma NarrowBig()
    ensures Big(3, 4) == [0, 0, 0, 3] && Big(65539, 4) == [0, 1, 0, 3]
  {
    hide Big;
    BigStep(3, 3);
    BigOfZero(3);
    BigStep(65539, 3);
    BigStep(256, 2);
    BigStep(1, 1);
    BigOfZero(1);
  }

  lemma LittleStep(n: nat, width: nat)
    ensures Little(n, width + 1) == [n % 256] + Little(n / 256, width)
  {
  }

  lemma BigStep(n: nat, width: nat)
    ensures Big(n, width + 1) == Big(n / 256, width) + [n % 256]
  {
  }

  lemma {:induction false} BigOfZero(width: nat)
    ensures Big(0, width) == seq(width, _ => 0)
  {
    if width > 0 {
      BigOfZero(width - 1);
    }
  }

  lemma {:induction false} LittleOfZero(width: nat)
    ensures Little(0, width) == seq(width, _ => 0)
  {
    if width > 0 {
      LittleOfZero(width - 1);
    }
  }

  lemma PositionFormat(block: nat, tx: nat, io: nat)
    ensures Position(block, tx, io) == Big(block, 8) + Big(tx, 4) + Big(io, 4)
  {
  }

  lemma CellFormat(kind: ScriptType, s: Script, block: nat, tx: nat, io: nat)
    ensures Encode(Cell(kind, s, block, tx, io)) == [if kind.Lock? then 32 else 64] + Raw(s) + Position(block, tx, io)
  {
    hide Position, Raw;
  }

  lemma HistoryFormat(kind: ScriptType, s: Script, block: nat, tx: nat, io: nat, output: bool)
    ensures Encode(History(kind, s, block, tx, io, output))
         == [if kind.Lock? then 96 else 128] + Raw(s) + Position(block, tx, io) + [if output then 1 else 0]
  {
    hide Position, Raw;
  }

  lemma EntryFormat(h: Hash)
    ensures var s := Script(h, 1, [7, 9]);
            var at := [0, 0, 0, 0, 0, 0, 1, 2] + [0, 0, 0, 3] + [0, 1, 0, 3];
            && Encode(Cell(Lock, s, 258, 3, 65539)) == [32] + h + [1, 7, 9] + at
            && Encode(Cell(Type, s, 258, 3, 65539)) == [64] + h + [1, 7, 9] + at
            && Encode(History(Lock, s, 258, 3, 65539, false)) == [96] + h + [1, 7, 9] + at + [0]
            && Encode(History(Type, s, 258, 3, 65539, true)) == [128] + h + [1, 7, 9] + at + [1]
  {
    hide Big, Encode, Position;
    NumberFormat();
    var s := Script(h, 1, [7, 9]);
    var raw := h + [1, 7, 9];
    assert Raw(s) == raw;
    assert Position(258, 3, 65539) == [0, 0, 0, 0, 0, 0, 1, 2] + [0, 0, 0, 3] + [0, 1, 0, 3] by {
      PositionFormat(258, 3, 65539);
    }
    CellFormat(Lock, s, 258, 3, 65539);
    CellFormat(Type, s, 258, 3, 65539);
    HistoryFormat(Lock, s, 258, 3, 65539, false);
    HistoryFormat(Type, s, 258, 3, 65539, true);
  }

  lemma KeyFormat(h: Hash)
    ensures Encode(TxHash(h)) == [0] + h && Encode(BlockHash(h)) == [160] + h
    ensures Encode(BlockNumber(258)) == [192, 0, 0, 0, 0, 0, 0, 1, 2]
    ensures Encode(CheckPointIndex(65539)) == [208, 0, 1, 0, 3] && Encode(Meta([65, 66])) == [224, 65, 66]
  {
    hide Big;
    NumberFormat();
  }

  lemma RecordFormat(h: Hash)
    ensures MatchedValue(258, [(h, true), (h, false)]) == [2, 1, 0, 0, 0, 0, 0, 0] + h + [1] + h + [0]
    ensures LastHeadersValue([(258, h)]) == [2, 1, 0, 0, 0, 0, 0, 0] + h
  {
    hide Little;
    NumberFormat();
    var second := [(h, false)];
    assert [(h, true), (h, false)][1..] == second && second[1..] == [];
    assert MatchedEntries(second) == h + [0];
    assert [(258, h)][1..] == [];
  }
}
