/**
  The high-water mark of one subscription (internal/events/logprocessor.go): the block to restart from. Block
  numbers are plain integers; the source keeps them in big.Int values.
 */
module HighWaterMarks {

  datatype Marks = Marks(hwm: int, highestDispatched: int)

  function PastBatch(m: Marks, block: int): Marks {
    if block + 1 > m.hwm then m.(hwm := block + 1) else m
  }

  function PastEmptyPage(m: Marks, block: int): Marks {
    if m.highestDispatched < m.hwm then m.(hwm := block + 1) else m
  }

  function WithDispatched(m: Marks, block: int): Marks {
    if block > m.highestDispatched then m.(highestDispatched := block) else m
  }

  class LogProcessor {
    var blockHWM: int
    var highestDispatched: int

    ghost function Value(): Marks
      reads this
    {
      Marks(blockHWM, highestDispatched)
    }

    constructor ()
      ensures Value() == Marks(0, -1)
    {
      blockHWM := 0;
      highestDispatched := -1;
    }

    /** `batchComplete`: never moves the mark back. */
    method BatchComplete(block: int)
      modifies this`blockHWM
      ensures Value() == PastBatch(old(Value()), block)
      ensures blockHWM >= old(blockHWM) && blockHWM > block && (blockHWM == old(blockHWM) || blockHWM == block + 1)
    {
      if block + 1 > blockHWM {
        blockHWM := block + 1;
      }
    }

    method MarkNoEvents(block: int)
      modifies this`blockHWM
      ensures Value() == PastEmptyPage(old(Value()), block)
      ensures blockHWM == if highestDispatched >= old(blockHWM) then old(blockHWM) else block + 1
    {
      if highestDispatched < blockHWM {
        blockHWM := block + 1;
      }
    }

    method InitBlockHWM(block: int)
      modifies this`blockHWM
      ensures Value() == old(Value()).(hwm := block)
    {
      blockHWM := block;
    }

    /** The part of `processLogEntry` that notes a dispatched block. */
    method NoteDispatched(block: int)
      modifies this`highestDispatched
      ensures Value() == WithDispatched(old(Value()), block)
      ensures highestDispatched >= old(highestDispatched) && highestDispatched >= block
      ensures highestDispatched == old(highestDispatched) || highestDispatched == block
    {
      if block > highestDispatched {
        highestDispatched := block;
      }
    }
  }
}
