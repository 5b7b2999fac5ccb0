/** Sizes and limits (src/dat.h). */
module Dat {
  const Blksz := 16384
  const Pivhdsz := 10
  const Leafhdsz := 6
  const Ptrsz := 24
  const Keymax := 256
  const Inlmax := 512
  const Kvmax := Keymax + Inlmax
  const Kpmax := Keymax + Ptrsz
  const Msgmax := 1 + Kvmax
  const Bufspc := (Blksz - Pivhdsz) / 2
  const Pivspc := Blksz - Pivhdsz - Bufspc
  const Leafspc := Blksz - Leafhdsz
  const Loghdsz := 2 + 2 + 8 + Ptrsz
  const Logspc := Blksz - Loghdsz
  const Logslop := 16 + 16 + 8
  const Dirsz := 61
  const Treesz := 4 + 4 + 4 + 4 + 8 + 8 + 8 + 8 + Ptrsz
}
