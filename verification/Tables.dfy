/** Constant tables of bytes as decision functions. */
module Tables {
  import opened Bytes

  /** Entry `k` of a sixteen-entry row. */
  function Row(k: Byte, v0: Byte, v1: Byte, v2: Byte, v3: Byte, v4: Byte, v5: Byte, v6: Byte, v7: Byte,
               v8: Byte, v9: Byte, v10: Byte, v11: Byte, v12: Byte, v13: Byte, v14: Byte, v15: Byte): Byte
  {
    if k < 8 then
      (if k < 4 then (if k < 2 then (if k < 1 then v0 else v1) else (if k < 3 then v2 else v3))
       else (if k < 6 then (if k < 5 then v4 else v5) else (if k < 7 then v6 else v7)))
    else
      (if k < 12 then (if k < 10 then (if k < 9 then v8 else v9) else (if k < 11 then v10 else v11))
       else (if k < 14 then (if k < 13 then v12 else v13) else (if k < 15 then v14 else v15)))
  }
}
